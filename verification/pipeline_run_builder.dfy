/**
 The PipelineRun builder of internal/tekton/pipeline_run_builder.go: volumes and the mounts of the
 steps. Images, scripts, resources and the keys projected from a volume are not part of this model.
 */
module PipelineRunBuilder {
  import opened Wrappers

  datatype Source = FromConfigMap(name: string) | FromSecret(name: string)

  datatype Volume = Volume(name: string, source: Source)

  datatype Mount = Mount(volume: string, path: string)

  datatype Step = Step(name: string, mounts: seq<Mount>)

  datatype Task = Task(name: string, hasSpec: bool, volumes: seq<Volume>, steps: seq<Step>)

  /** MountOptions: no step names means every step. */
  datatype Options = Options(task: string, steps: seq<string>)

  /** The defaults of a call: without options or a task name the build task, without step names every step. */
  function Given(options: Option<Options>): (given: Options)
    ensures given.task != ""
    ensures options.Some? ==> given.steps == options.value.steps
    ensures options.Some? && options.value.task != "" ==> given == options.value
    ensures options.None? || options.value.task == "" ==> given.task == "build"
  {
    match options
    case None => Options("build", [])
    case Some(o) => if o.task == "" then o.(task := "build") else o
  }

  // ----- Names -----

  function SanitizeVolumeName(name: string): (s: string)
    ensures |s| == |name| && '.' !in s
    ensures forall i | 0 <= i < |s| :: s[i] != name[i] ==> name[i] == '.' && s[i] == '-'
  {
    seq(|name|, i requires 0 <= i < |name| => if name[i] == '.' then '-' else name[i])
  }

  function ConfigMapVolume(name: string): Volume {
    Volume("configmap-" + SanitizeVolumeName(name), FromConfigMap(name))
  }

  function SecretVolume(name: string, suffix: string): Volume {
    Volume("secret-" + SanitizeVolumeName(name) + "-" + suffix, FromSecret(name))
  }

  /** The name of a volume says its kind and, dots aside, what it is made from. */
  lemma VolumeNamesSay(name: string, suffix: string)
    ensures var volume := ConfigMapVolume(name);
      && volume.source == FromConfigMap(name) && "configmap-" <= volume.name
      && volume.name[10..] == SanitizeVolumeName(name)
    ensures var volume := SecretVolume(name, suffix);
      && volume.source == FromSecret(name) && "secret-" <= volume.name
      && volume.name[7..] == SanitizeVolumeName(name) + "-" + suffix
  {
    assert ("configmap-" + SanitizeVolumeName(name))[10..] == SanitizeVolumeName(name);
    var tail := SanitizeVolumeName(name) + "-" + suffix;
    assert "secret-" + SanitizeVolumeName(name) + "-" + suffix == "secret-" + tail;
    assert ("secret-" + tail)[7..] == tail;
  }

  // ----- What a call does to the tasks -----

  predicate Selected(options: Options, step: Step) {
    options.steps == [] || step.name in options.steps
  }

  function AddMount(steps: seq<Step>, mount: Mount, options: Options): (r: seq<Step>)
    ensures |r| == |steps|
    ensures forall i | 0 <= i < |steps| ::
      r[i] == if Selected(options, steps[i]) then steps[i].(mounts := steps[i].mounts + [mount]) else steps[i]
  {
    if steps == [] then []
    else
      var last := steps[|steps| - 1];
      AddMount(steps[..|steps| - 1], mount, options)
      + [if Selected(options, last) then last.(mounts := last.mounts + [mount]) else last]
  }

  predicate IsTarget(task: Task, options: Options) {
    task.name == options.task && task.hasSpec
  }

  function WithVolume(task: Task, volume: Volume, path: string, options: Options): Task {
    task.(volumes := task.volumes + [volume], steps := AddMount(task.steps, Mount(volume.name, path), options))
  }

  /** Only the first task of that name with a spec is changed. */
  function AddVolume(tasks: seq<Task>, volume: Volume, path: string, options: Options): seq<Task> {
    if tasks == [] then []
    else if IsTarget(tasks[0], options) then [WithVolume(tasks[0], volume, path, options)] + tasks[1..]
    else [tasks[0]] + AddVolume(tasks[1..], volume, path, options)
  }

  const ANALYZER := Step("log-analyzer", [])

  function AddAnalyzer(tasks: seq<Task>): seq<Task> {
    if tasks == [] then []
    else if tasks[0].name == "build" && tasks[0].hasSpec
    then [tasks[0].(steps := tasks[0].steps + [ANALYZER])] + tasks[1..]
    else [tasks[0]] + AddAnalyzer(tasks[1..])
  }

  const INITIAL_TASKS := [
    Task("build", true, [],
      [Step("prepare-db", []), Step("prepare-rpm-cert", []), Step("renovate", []), Step("log-sanitizer", [])])
  ]

  /** Lines 381-386: mount on the selected steps, in place. */
  method AppendMounts(steps: seq<Step>, mount: Mount, options: Options) returns (r: seq<Step>)
    ensures r == AddMount(steps, mount, options)
  {
    r := steps;
    for j := 0 to |steps|
      invariant |r| == |steps|
      invariant forall k | 0 <= k < |steps| ::
        r[k] == if k < j && Selected(options, steps[k]) then steps[k].(mounts := steps[k].mounts + [mount])
                else steps[k]
    {
      if options.steps == [] || r[j].name in options.steps {
        r := r[j := r[j].(mounts := r[j].mounts + [mount])];
      }
    }
  }

  lemma {:induction false} AddVolumeAt(tasks: seq<Task>, i: nat, volume: Volume, path: string, options: Options)
    requires i < |tasks| && IsTarget(tasks[i], options) && forall k | 0 <= k < i :: !IsTarget(tasks[k], options)
    ensures AddVolume(tasks, volume, path, options) == tasks[i := WithVolume(tasks[i], volume, path, options)]
  {
    if i > 0 {
      hide WithVolume;
      AddVolumeAt(tasks[1..], i - 1, volume, path, options);
      assert tasks == [tasks[0]] + tasks[1..];
    }
  }

  lemma {:induction false} AddVolumeNowhere(tasks: seq<Task>, volume: Volume, path: string, options: Options)
    requires forall k | 0 <= k < |tasks| :: !IsTarget(tasks[k], options)
    ensures AddVolume(tasks, volume, path, options) == tasks
  {
    if tasks != [] {
      AddVolumeNowhere(tasks[1..], volume, path, options);
    }
  }

  lemma {:induction false} AddAnalyzerAt(tasks: seq<Task>, i: nat)
    requires i < |tasks| && tasks[i].name == "build" && tasks[i].hasSpec
    requires forall k | 0 <= k < i :: !(tasks[k].name == "build" && tasks[k].hasSpec)
    ensures AddAnalyzer(tasks) == tasks[i := tasks[i].(steps := tasks[i].steps + [ANALYZER])]
  {
    if i > 0 {
      AddAnalyzerAt(tasks[1..], i - 1);
      assert tasks == [tasks[0]] + tasks[1..];
    }
  }

  lemma {:induction false} AddAnalyzerNowhere(tasks: seq<Task>)
    requires forall k | 0 <= k < |tasks| :: !(tasks[k].name == "build" && tasks[k].hasSpec)
    ensures AddAnalyzer(tasks) == tasks
  {
    if tasks != [] {
      AddAnalyzerNowhere(tasks[1..]);
    }
  }

  class Builder {
    var tasks: seq<Task>

    constructor ()
      ensures tasks == INITIAL_TASKS
    {
      tasks := INITIAL_TASKS;
    }

    /** The loop that WithConfigMap and WithSecret share. */
    method MountVolume(volume: Volume, path: string, options: Options)
      modifies this
      ensures tasks == AddVolume(old(tasks), volume, path, options)
    {
      for i := 0 to |tasks|
        invariant tasks == old(tasks)
        invariant forall k | 0 <= k < i :: !IsTarget(tasks[k], options)
      {
        var task := tasks[i];
        if task.name == options.task && task.hasSpec {
          AddVolumeAt(tasks, i, volume, path, options);
          var steps := AppendMounts(task.steps, Mount(volume.name, path), options);
          tasks := tasks[i := task.(volumes := task.volumes + [volume], steps := steps)];
          return;
        }
      }
      AddVolumeNowhere(tasks, volume, path, options);
    }

    method WithConfigMap(name: string, path: string, options: Option<Options>)
      modifies this
      ensures tasks == AddVolume(old(tasks), ConfigMapVolume(name), path, Given(options))
    {
      MountVolume(ConfigMapVolume(name), path, Given(options));
    }

    /** `suffix` is the random string drawn for this call. */
    method WithSecret(name: string, path: string, options: Option<Options>, suffix: string)
      modifies this
      ensures tasks == AddVolume(old(tasks), SecretVolume(name, suffix), path, Given(options))
    {
      MountVolume(SecretVolume(name, suffix), path, Given(options));
    }

    method WithKiteIntegration()
      modifies this
      ensures tasks == AddAnalyzer(old(tasks))
    {
      for i := 0 to |tasks|
        invariant tasks == old(tasks)
        invariant forall k | 0 <= k < i :: !(tasks[k].name == "build" && tasks[k].hasSpec)
      {
        if tasks[i].name == "build" && tasks[i].hasSpec {
          AddAnalyzerAt(tasks, i);
          tasks := tasks[i := tasks[i].(steps := tasks[i].steps + [ANALYZER])];
          return;
        }
      }
      AddAnalyzerNowhere(tasks);
    }
  }

  // ----- Every mount names a volume of its task -----

  predicate HasVolume(volumes: seq<Volume>, name: string) {
    exists i :: 0 <= i < |volumes| && volumes[i].name == name
  }

  predicate WellFormedTask(task: Task) {
    forall i, j | 0 <= i < |task.steps| && 0 <= j < |task.steps[i].mounts| ::
        HasVolume(task.volumes, task.steps[i].mounts[j].volume)
  }

  predicate WellFormed(tasks: seq<Task>) {
    forall i | 0 <= i < |tasks| :: WellFormedTask(tasks[i])
  }

  /** A builder call, with its options after the defaults. */
  datatype Call =
    | ConfigMapCall(name: string, path: string, options: Options)
    | SecretCall(name: string, path: string, options: Options, suffix: string)
    | KiteCall

  function VolumeOf(call: Call): Volume
    requires !call.KiteCall?
  {
    if call.ConfigMapCall? then ConfigMapVolume(call.name) else SecretVolume(call.name, call.suffix)
  }

  function AfterCall(tasks: seq<Task>, call: Call): seq<Task> {
    if call.KiteCall? then AddAnalyzer(tasks) else AddVolume(tasks, VolumeOf(call), call.path, call.options)
  }

  function AfterCalls(tasks: seq<Task>, calls: seq<Call>): seq<Task> {
    if calls == [] then tasks else AfterCall(AfterCalls(tasks, calls[..|calls| - 1]), calls[|calls| - 1])
  }

  lemma MountedTaskWellFormed(task: Task, volume: Volume, path: string, options: Options)
    requires WellFormedTask(task)
    ensures WellFormedTask(WithVolume(task, volume, path, options))
  {
    var volumes := task.volumes + [volume];
    assert volumes[|task.volumes|] == volume;
    forall name | HasVolume(task.volumes, name) ensures HasVolume(volumes, name) {
      var i :| 0 <= i < |task.volumes| && task.volumes[i].name == name;
      assert volumes[i].name == name;
    }
  }

  lemma {:induction false} CallKeepsWellFormed(tasks: seq<Task>, call: Call)
    requires WellFormed(tasks)
    ensures WellFormed(AfterCall(tasks, call))
    decreases |tasks|
  {
    if tasks != [] {
      assert WellFormedTask(tasks[0]) && WellFormed(tasks[1..]);
      CallKeepsWellFormed(tasks[1..], call);
      if !call.KiteCall? {
        MountedTaskWellFormed(tasks[0], VolumeOf(call), call.path, call.options);
      }
    }
  }

  /** After any sequence of calls, every mount of every step names a volume of its own task. */
  lemma {:induction false} MountsNameVolumes(calls: seq<Call>)
    ensures WellFormed(AfterCalls(INITIAL_TASKS, calls))
  {
    if calls != [] {
      MountsNameVolumes(calls[..|calls| - 1]);
      CallKeepsWellFormed(AfterCalls(INITIAL_TASKS, calls[..|calls| - 1]), calls[|calls| - 1]);
    }
  }

  // ----- Volume names -----

  /** The calls that add a volume to the build task, in order. */
  function Volumed(calls: seq<Call>): (r: seq<Call>)
    ensures forall i | 0 <= i < |r| :: !r[i].KiteCall?
  {
    if calls == [] then []
    else
      var last := calls[|calls| - 1];
      Volumed(calls[..|calls| - 1]) + if last.KiteCall? || last.options.task != "build" then [] else [last]
  }

  function Volumes(calls: seq<Call>): (r: seq<Volume>)
    ensures |r| == |Volumed(calls)| && forall i | 0 <= i < |r| :: r[i] == VolumeOf(Volumed(calls)[i])
  {
    seq(|Volumed(calls)|, i requires 0 <= i < |Volumed(calls)| => VolumeOf(Volumed(calls)[i]))
  }

  lemma OneTaskCall(task: Task, call: Call)
    requires task.name == "build" && task.hasSpec
    ensures var tasks := AfterCall([task], call);
            && |tasks| == 1 && tasks[0].name == "build" && tasks[0].hasSpec
            && tasks[0].volumes
               == task.volumes + if call.KiteCall? || call.options.task != "build" then [] else [VolumeOf(call)]
  {
    assert [task][1..] == [];
    if !call.KiteCall? {
      assert AddVolume([], VolumeOf(call), call.path, call.options) == [];
    }
  }

  /** The built PipelineRun has the one build task, with one volume per call, in order. */
  lemma {:induction false} BuildTaskVolumes(calls: seq<Call>)
    ensures var tasks := AfterCalls(INITIAL_TASKS, calls);
            |tasks| == 1 && tasks[0].name == "build" && tasks[0].hasSpec && tasks[0].volumes == Volumes(calls)
  {
    if calls != [] {
      var before := AfterCalls(INITIAL_TASKS, calls[..|calls| - 1]);
      BuildTaskVolumes(calls[..|calls| - 1]);
      OneTaskCall(before[0], calls[|calls| - 1]);
      assert before == [before[0]];
    }
  }

  /** RandomString(8) of every secret call, drawn without repetition. */
  predicate FreshSuffixes(calls: seq<Call>) {
    && (forall i | 0 <= i < |calls| && calls[i].SecretCall? :: |calls[i].suffix| == 8)
    && (forall i, j | 0 <= i < j < |calls| && calls[i].SecretCall? && calls[j].SecretCall? ::
        calls[i].suffix != calls[j].suffix)
  }

  lemma NamesMeet(a: Call, b: Call)
    requires !a.KiteCall? && !b.KiteCall? && VolumeOf(a).name == VolumeOf(b).name
    requires a.SecretCall? ==> |a.suffix| == 8
    requires b.SecretCall? ==> |b.suffix| == 8
    ensures a.SecretCall? <==> b.SecretCall?
    ensures a.SecretCall? ==> a.suffix == b.suffix
    ensures a.ConfigMapCall? ==> SanitizeVolumeName(a.name) == SanitizeVolumeName(b.name)
  {
    var n, m := VolumeOf(a).name, VolumeOf(b).name;
    assert n[0] == if a.SecretCall? then 's' else 'c';
    assert m[0] == if b.SecretCall? then 's' else 'c';
    if a.SecretCall? {
      assert n[|n| - 8..] == a.suffix && m[|m| - 8..] == b.suffix;
    } else {
      assert n[10..] == SanitizeVolumeName(a.name) && m[10..] == SanitizeVolumeName(b.name);
    }
  }

  predicate DistinctVolumeNames(volumes: seq<Volume>) {
    forall i, j | 0 <= i < j < |volumes| :: volumes[i].name != volumes[j].name
  }

  predicate DistinctSanitized(calls: seq<Call>) {
    forall i, j | 0 <= i < j < |calls| && calls[i].ConfigMapCall? && calls[j].ConfigMapCall? ::
      SanitizeVolumeName(calls[i].name) != SanitizeVolumeName(calls[j].name)
  }

  /** With fresh suffixes, volume names clash exactly when two ConfigMap names agree after sanitising. */
  lemma VolumeNamesDistinctIff(calls: seq<Call>)
    requires FreshSuffixes(Volumed(calls))
    ensures DistinctVolumeNames(Volumes(calls)) <==> DistinctSanitized(Volumed(calls))
  {
    var m := Volumed(calls);
    var volumes := Volumes(calls);
    forall i, j | 0 <= i < j < |m| && volumes[i].name == volumes[j].name
      ensures m[i].ConfigMapCall? && m[j].ConfigMapCall?
          && SanitizeVolumeName(m[i].name) == SanitizeVolumeName(m[j].name)
    {
      NamesMeet(m[i], m[j]);
    }
    forall i, j | 0 <= i < j < |m| && m[i].ConfigMapCall? && m[j].ConfigMapCall?
        && SanitizeVolumeName(m[i].name) == SanitizeVolumeName(m[j].name)
      ensures volumes[i].name == volumes[j].name
    {
    }
  }

  // ----- From the volume name in an event back to the secret -----

  /** internal/controller/event_controller.go, lines 164-170: the first secret volume of that name. */
  function SecretForVolume(volumes: seq<Volume>, name: string): Option<string> {
    if volumes == [] then None
    else if volumes[0].name == name && volumes[0].source.FromSecret? then Some(volumes[0].source.name)
    else SecretForVolume(volumes[1..], name)
  }

  lemma {:induction false} LookupFinds(volumes: seq<Volume>, k: nat)
    requires k < |volumes| && volumes[k].source.FromSecret?
    requires forall i | 0 <= i < k && volumes[i].source.FromSecret? :: volumes[i].name != volumes[k].name
    ensures SecretForVolume(volumes, volumes[k].name) == Some(volumes[k].source.name)
  {
    if k > 0 {
      LookupFinds(volumes[1..], k - 1);
    }
  }

  /** Whatever else was mounted, the lookup of a secret volume's name returns the secret it was built from. */
  lemma SecretVolumeLeadsBack(calls: seq<Call>, k: nat)
    requires FreshSuffixes(Volumed(calls)) && k < |Volumed(calls)| && Volumed(calls)[k].SecretCall?
    ensures SecretForVolume(Volumes(calls), VolumeOf(Volumed(calls)[k]).name) == Some(Volumed(calls)[k].name)
  {
    var m := Volumed(calls);
    var volumes := Volumes(calls);
    forall i | 0 <= i < k && volumes[i].source.FromSecret? ensures volumes[i].name != volumes[k].name {
      if volumes[i].name == volumes[k].name {
        NamesMeet(m[i], m[k]);
      }
    }
    LookupFinds(volumes, k);
  }

  // ----- The calls of createPipelineRun -----

  const BUILD_RENOVATE := Options("build", ["renovate"])
  const BUILD_RPM := Options("build", ["prepare-rpm-cert"])
  const BUILD_ANALYZER := Options("build", ["log-analyzer"])

  const CONFIG_PATH := "/etc/renovate/config"
  const SECRET_PATH := "/etc/renovate/secret"
  const CA_PATH := "/etc/pki/ca-trust/extracted/pem"
  const DOCKER_PATH := "/home/renovate/.docker"
  const KITE_CA_PATH := "/etc/pki/kite-ca"
  const KITE_TOKEN_PATH := "/var/run/secrets/kite"

  /** Which of the optional volumes a run gets. */
  datatype Plan = Plan(name: string, rpm: bool, caConfigMap: Option<string>, docker: bool, kiteSecret: Option<string>)

  function BaseCalls(plan: Plan, suffix: nat -> string): seq<Call> {
    [ConfigMapCall(plan.name, CONFIG_PATH, BUILD_RENOVATE),
     SecretCall(plan.name, SECRET_PATH, BUILD_RENOVATE, suffix(0))]
    + if plan.rpm then [SecretCall(plan.name + "-rpm-key", SECRET_PATH, BUILD_RPM, suffix(1))] else []
  }

  function RegistryCalls(plan: Plan, suffix: nat -> string): seq<Call> {
    (if plan.caConfigMap.Some? then [ConfigMapCall(plan.caConfigMap.value, CA_PATH, BUILD_RENOVATE)] else [])
    + if plan.docker then [SecretCall(plan.name, DOCKER_PATH, BUILD_RENOVATE, suffix(2))] else []
  }

  function KiteCalls(plan: Plan, suffix: nat -> string): seq<Call> {
    if plan.kiteSecret.Some?
    then [KiteCall, ConfigMapCall("openshift-service-ca.crt", KITE_CA_PATH, BUILD_ANALYZER),
          SecretCall(plan.kiteSecret.value, KITE_TOKEN_PATH, BUILD_ANALYZER, suffix(3))]
    else []
  }

  /** Lines 321-404 of internal/controller/dependencyupdatecheck_controller.go; `suffix` gives the random string of
      each secret call. */
  function PlannedCalls(plan: Plan, suffix: nat -> string): seq<Call> {
    BaseCalls(plan, suffix) + RegistryCalls(plan, suffix) + KiteCalls(plan, suffix)
  }

  /** The builder has made exactly these calls. */
  predicate Made(tasks: seq<Task>, calls: seq<Call>) {
    tasks == AfterCalls(INITIAL_TASKS, calls)
  }

  lemma MadeOneMore(tasks: seq<Task>, calls: seq<Call>, call: Call)
    requires Made(tasks, calls)
    ensures Made(AfterCall(tasks, call), calls + [call])
  {
  }

  method MakeBaseCalls(builder: Builder, plan: Plan, suffix: nat -> string)
    requires builder.tasks == INITIAL_TASKS
    modifies builder
    ensures Made(builder.tasks, BaseCalls(plan, suffix))
  {
    ghost var config := ConfigMapCall(plan.name, CONFIG_PATH, BUILD_RENOVATE);
    ghost var secret := SecretCall(plan.name, SECRET_PATH, BUILD_RENOVATE, suffix(0));
    assert Made(builder.tasks, []);
    hide Made, AddVolume, ConfigMapVolume, SecretVolume, Given;
    MadeOneMore(builder.tasks, [], config);
    builder.WithConfigMap(plan.name, CONFIG_PATH, Some(BUILD_RENOVATE));
    assert [] + [config] == [config];
    MadeOneMore(builder.tasks, [config], secret);
    builder.WithSecret(plan.name, SECRET_PATH, Some(BUILD_RENOVATE), suffix(0));
    assert [config] + [secret] == [config, secret];
    if plan.rpm {
      ghost var rpm := SecretCall(plan.name + "-rpm-key", SECRET_PATH, BUILD_RPM, suffix(1));
      MadeOneMore(builder.tasks, [config, secret], rpm);
      builder.WithSecret(plan.name + "-rpm-key", SECRET_PATH, Some(BUILD_RPM), suffix(1));
    } else {
      assert [config, secret] + [] == [config, secret];
    }
  }

  method MakeRegistryCalls(builder: Builder, plan: Plan, suffix: nat -> string, ghost before: seq<Call>)
    requires Made(builder.tasks, before)
    modifies builder
    ensures Made(builder.tasks, before + RegistryCalls(plan, suffix))
  {
    ghost var calls := before;
    hide Made, AddVolume, ConfigMapVolume, SecretVolume, Given;
    if plan.caConfigMap.Some? {
      MadeOneMore(builder.tasks, calls, ConfigMapCall(plan.caConfigMap.value, CA_PATH, BUILD_RENOVATE));
      builder.WithConfigMap(plan.caConfigMap.value, CA_PATH, Some(BUILD_RENOVATE));
      calls := calls + [ConfigMapCall(plan.caConfigMap.value, CA_PATH, BUILD_RENOVATE)];
    }
    if plan.docker {
      MadeOneMore(builder.tasks, calls, SecretCall(plan.name, DOCKER_PATH, BUILD_RENOVATE, suffix(2)));
      builder.WithSecret(plan.name, DOCKER_PATH, Some(BUILD_RENOVATE), suffix(2));
      calls := calls + [SecretCall(plan.name, DOCKER_PATH, BUILD_RENOVATE, suffix(2))];
    }
    assert calls == before + RegistryCalls(plan, suffix);
  }

  method MakeKiteCalls(builder: Builder, plan: Plan, suffix: nat -> string, ghost before: seq<Call>)
    requires Made(builder.tasks, before)
    modifies builder
    ensures Made(builder.tasks, before + KiteCalls(plan, suffix))
  {
    ghost var calls := before;
    hide Made, AddVolume, AddAnalyzer, ConfigMapVolume, SecretVolume, Given;
    if plan.kiteSecret.Some? {
      MadeOneMore(builder.tasks, calls, KiteCall);
      builder.WithKiteIntegration();
      calls := calls + [KiteCall];
      MadeOneMore(builder.tasks, calls, ConfigMapCall("openshift-service-ca.crt", KITE_CA_PATH, BUILD_ANALYZER));
      builder.WithConfigMap("openshift-service-ca.crt", KITE_CA_PATH, Some(BUILD_ANALYZER));
      calls := calls + [ConfigMapCall("openshift-service-ca.crt", KITE_CA_PATH, BUILD_ANALYZER)];
      MadeOneMore(builder.tasks, calls, SecretCall(plan.kiteSecret.value, KITE_TOKEN_PATH, BUILD_ANALYZER, suffix(3)));
      builder.WithSecret(plan.kiteSecret.value, KITE_TOKEN_PATH, Some(BUILD_ANALYZER), suffix(3));
      calls := calls + [SecretCall(plan.kiteSecret.value, KITE_TOKEN_PATH, BUILD_ANALYZER, suffix(3))];
    }
    assert calls == before + KiteCalls(plan, suffix);
  }

  /** The builder calls of createPipelineRun. */
  method BuildPipelineRun(plan: Plan, suffix: nat -> string) returns (tasks: seq<Task>)
    ensures tasks == AfterCalls(INITIAL_TASKS, PlannedCalls(plan, suffix)) == [BuiltTask(plan, suffix)]
  {
    BuildTaskVolumes(PlannedCalls(plan, suffix));
    var builder := new Builder();
    MakeBaseCalls(builder, plan, suffix);
    MakeRegistryCalls(builder, plan, suffix, BaseCalls(plan, suffix));
    MakeKiteCalls(builder, plan, suffix, BaseCalls(plan, suffix) + RegistryCalls(plan, suffix));
    return builder.tasks;
  }

  // ----- Mount paths -----

  function Paths(step: Step): seq<string> {
    PathsOf(step.mounts)
  }

  function PathsOf(mounts: seq<Mount>): (paths: seq<string>)
    ensures |paths| == |mounts| && forall i | 0 <= i < |mounts| :: paths[i] == mounts[i].path
  {
    seq(|mounts|, i requires 0 <= i < |mounts| => mounts[i].path)
  }

  lemma PathsConcat(a: seq<Mount>, b: seq<Mount>)
    ensures PathsOf(a + b) == PathsOf(a) + PathsOf(b)
  {
  }

  /** What a call mounts on the build step of that name. */
  function MountTo(call: Call, step: string): seq<Mount> {
    if !call.KiteCall? && call.options.task == "build" && step in call.options.steps
    then [Mount(VolumeOf(call).name, call.path)] else []
  }

  /** What the calls mount on it, in order. */
  function MountsTo(calls: seq<Call>, step: string): seq<Mount> {
    if calls == [] then []
    else MountsTo(calls[..|calls| - 1], step) + MountTo(calls[|calls| - 1], step)
  }

  predicate Explicit(calls: seq<Call>) {
    forall i | 0 <= i < |calls| && !calls[i].KiteCall? :: calls[i].options.steps != []
  }

  predicate NamesAnalyzer(call: Call) {
    !call.KiteCall? && "log-analyzer" in call.options.steps
  }

  /** The analyzer step is added at most once and nothing is meant for it before. */
  predicate AnalyzerReady(calls: seq<Call>) {
    forall i, j | 0 <= i < j < |calls| && calls[j].KiteCall? :: !calls[i].KiteCall? && !NamesAnalyzer(calls[i])
  }

  predicate HasMounts(tasks: seq<Task>, calls: seq<Call>) {
    && |tasks| == 1 && tasks[0].name == "build" && tasks[0].hasSpec
    && forall i | 0 <= i < |tasks[0].steps| :: tasks[0].steps[i].mounts == MountsTo(calls, tasks[0].steps[i].name)
  }

  lemma {:induction false} NothingForAnalyzer(calls: seq<Call>)
    requires forall i | 0 <= i < |calls| :: !NamesAnalyzer(calls[i])
    ensures MountsTo(calls, "log-analyzer") == []
  {
    if calls != [] {
      NothingForAnalyzer(calls[..|calls| - 1]);
      assert !NamesAnalyzer(calls[|calls| - 1]);
    }
  }

  lemma OneTaskSteps(task: Task, call: Call)
    requires task.name == "build" && task.hasSpec && (call.KiteCall? || call.options.steps != [])
    ensures var tasks := AfterCall([task], call);
            && |tasks| == 1 && tasks[0].name == "build" && tasks[0].hasSpec
            && (if call.KiteCall? then tasks[0].steps == task.steps + [ANALYZER]
                else |tasks[0].steps| == |task.steps| && forall i | 0 <= i < |task.steps| ::
                  && tasks[0].steps[i].name == task.steps[i].name
                  && tasks[0].steps[i].mounts == task.steps[i].mounts + MountTo(call, task.steps[i].name))
  {
    OneTaskCall(task, call);
    if !call.KiteCall? && call.options.task != "build" {
      assert AfterCall([task], call) == [task] + AddVolume([task][1..], VolumeOf(call), call.path, call.options);
      assert [task][1..] == [];
    }
  }

  /** Each step carries exactly the mounts of the calls that name it. */
  lemma {:induction false} StepPaths(calls: seq<Call>)
    requires Explicit(calls) && AnalyzerReady(calls)
    ensures HasMounts(AfterCalls(INITIAL_TASKS, calls), calls)
  {
    if calls == [] {
    } else {
      var n := |calls| - 1;
      StepPaths(calls[..n]);
      var before := AfterCalls(INITIAL_TASKS, calls[..n]);
      assert before == [before[0]];
      OneTaskSteps(before[0], calls[n]);
      if calls[n].KiteCall? {
        NothingForAnalyzer(calls[..n]);
      }
    }
  }

  /** No two calls mount the same path on the same step. */
  predicate ClashFree(calls: seq<Call>) {
    forall i, j, step: string | 0 <= i < j < |calls| && !calls[i].KiteCall? && !calls[j].KiteCall?
                                && step in calls[i].options.steps && step in calls[j].options.steps ::
      calls[i].path != calls[j].path
  }

  predicate Distinct(paths: seq<string>) {
    forall i, j | 0 <= i < j < |paths| :: paths[i] != paths[j]
  }

  lemma {:induction false} ClashFreePathsDistinct(calls: seq<Call>, step: string)
    requires ClashFree(calls)
    ensures Distinct(PathsOf(MountsTo(calls, step)))
    ensures forall p | p in PathsOf(MountsTo(calls, step)) ::
      exists i :: 0 <= i < |calls| && !calls[i].KiteCall? && step in calls[i].options.steps && calls[i].path == p
  {
    if calls != [] {
      var n := |calls| - 1;
      ClashFreePathsDistinct(calls[..n], step);
      var earlier := PathsOf(MountsTo(calls[..n], step));
      PathsConcat(MountsTo(calls[..n], step), MountTo(calls[n], step));
      if !calls[n].KiteCall? && step in calls[n].options.steps {
        forall k | 0 <= k < |earlier| ensures earlier[k] != calls[n].path {
          assert earlier[k] in earlier;
          var i :| 0 <= i < n && !calls[i].KiteCall? && step in calls[i].options.steps && calls[i].path == earlier[k];
        }
      }
    }
  }

  /** Numbers the planned mounts in order; a function of the path and the steps mounted on. */
  function Slot(call: Call): nat {
    if call.KiteCall? then 5
    else if call.path == CONFIG_PATH then 0
    else if call.path == SECRET_PATH then (if call.options == BUILD_RENOVATE then 1 else 2)
    else if call.path == CA_PATH then 3
    else if call.path == DOCKER_PATH then 4
    else if call.path == KITE_CA_PATH then 6
    else 7
  }

  /** Slots rise along the list, and every volume is for one step, the analyzer only after it was added. */
  predicate Orderly(calls: seq<Call>, lo: nat, hi: nat) {
    && (forall i | 0 <= i < |calls| :: lo <= Slot(calls[i]) < hi)
    && (forall i, j | 0 <= i < j < |calls| :: Slot(calls[i]) < Slot(calls[j]))
    && (forall i | 0 <= i < |calls| && !calls[i].KiteCall? ::
        calls[i].options in {BUILD_RENOVATE, BUILD_RPM, BUILD_ANALYZER})
    && (forall i | 0 <= i < |calls| :: calls[i].KiteCall? <==> Slot(calls[i]) == 5)
    && (forall i | 0 <= i < |calls| && Slot(calls[i]) < 5 :: calls[i].options != BUILD_ANALYZER)
  }

  lemma OrderlyAppend(a: seq<Call>, b: seq<Call>, lo: nat, mid: nat, hi: nat)
    requires Orderly(a, lo, mid) && Orderly(b, mid, hi) && lo <= mid <= hi
    ensures Orderly(a + b, lo, hi)
  {
  }

  lemma BaseCallsOrderly(plan: Plan, suffix: nat -> string)
    ensures Orderly(BaseCalls(plan, suffix), 0, 3)
  {
  }

  lemma RegistryCallsOrderly(plan: Plan, suffix: nat -> string)
    ensures Orderly(RegistryCalls(plan, suffix), 3, 5)
  {
  }

  lemma KiteCallsOrderly(plan: Plan, suffix: nat -> string)
    ensures Orderly(KiteCalls(plan, suffix), 5, 8)
  {
  }

  lemma PlannedCallsOrderly(plan: Plan, suffix: nat -> string)
    ensures Orderly(PlannedCalls(plan, suffix), 0, 8)
  {
    BaseCallsOrderly(plan, suffix);
    RegistryCallsOrderly(plan, suffix);
    KiteCallsOrderly(plan, suffix);
    hide Orderly, BaseCalls, RegistryCalls, KiteCalls;
    OrderlyAppend(BaseCalls(plan, suffix), RegistryCalls(plan, suffix), 0, 3, 5);
    OrderlyAppend(BaseCalls(plan, suffix) + RegistryCalls(plan, suffix), KiteCalls(plan, suffix), 0, 5, 8);
  }

  lemma OrderlyCallsClashFree(calls: seq<Call>, hi: nat)
    requires Orderly(calls, 0, hi)
    ensures ClashFree(calls) && Explicit(calls) && AnalyzerReady(calls)
  {
  }

  /** In the PipelineRun that createPipelineRun builds, the mount paths of each step are pairwise distinct. */
  lemma MountPathsDistinct(plan: Plan, suffix: nat -> string)
    ensures var tasks := AfterCalls(INITIAL_TASKS, PlannedCalls(plan, suffix));
            && |tasks| == 1
            && forall i | 0 <= i < |tasks[0].steps| :: Distinct(Paths(tasks[0].steps[i]))
  {
    var calls := PlannedCalls(plan, suffix);
    PlannedCallsOrderly(plan, suffix);
    OrderlyCallsClashFree(calls, 8);
    StepPaths(calls);
    var tasks := AfterCalls(INITIAL_TASKS, calls);
    forall i | 0 <= i < |tasks[0].steps| ensures Distinct(Paths(tasks[0].steps[i])) {
      ClashFreePathsDistinct(calls, tasks[0].steps[i].name);
    }
  }

  // ----- The PipelineRun that is built -----

  lemma {:induction false} MountedByCall(calls: seq<Call>, call: Call, step: string)
    requires call in calls && !call.KiteCall? && call.options.task == "build" && step in call.options.steps
    ensures Mount(VolumeOf(call).name, call.path) in MountsTo(calls, step) && VolumeOf(call) in Volumes(calls)
  {
    var before, last := calls[..|calls| - 1], calls[|calls| - 1];
    if call == last {
      assert MountTo(last, step) == [Mount(VolumeOf(call).name, call.path)];
      assert Volumed(calls)[|Volumed(before)|] == call;
      assert Volumes(calls)[|Volumed(before)|] == VolumeOf(call);
    } else {
      assert call in before;
      MountedByCall(before, call, step);
      var k :| 0 <= k < |Volumes(before)| && Volumes(before)[k] == VolumeOf(call);
      assert Volumed(calls)[k] == Volumed(before)[k] && Volumes(calls)[k] == VolumeOf(call);
    }
  }

  lemma {:induction false} MountsConcat(a: seq<Call>, b: seq<Call>, step: string)
    ensures MountsTo(a + b, step) == MountsTo(a, step) + MountsTo(b, step)
    decreases |b|
  {
    hide MountTo;
    if b == [] {
      assert a + b == a;
    } else {
      MountsConcat(a, b[..|b| - 1], step);
      assert (a + b)[..|a + b| - 1] == a + b[..|b| - 1];
    }
  }

  function StepNames(steps: seq<Step>): (names: seq<string>)
    ensures |names| == |steps| && forall i | 0 <= i < |steps| :: names[i] == steps[i].name
  {
    seq(|steps|, i requires 0 <= i < |steps| => steps[i].name)
  }

  lemma OneTaskNames(task: Task, call: Call)
    requires task.name == "build" && task.hasSpec
    ensures var tasks := AfterCall([task], call);
      && |tasks| == 1
      && StepNames(tasks[0].steps) == StepNames(task.steps) + if call.KiteCall? then ["log-analyzer"] else []
  {
    OneTaskCall(task, call);
    if !call.KiteCall? && call.options.task != "build" {
      assert AfterCall([task], call) == [task] + AddVolume([task][1..], VolumeOf(call), call.path, call.options);
      assert [task][1..] == [];
    }
  }

  /** How many times the analyzer is added. */
  function Analyzers(calls: seq<Call>): seq<string> {
    if calls == [] then []
    else Analyzers(calls[..|calls| - 1]) + if calls[|calls| - 1].KiteCall? then ["log-analyzer"] else []
  }

  const INITIAL_STEPS := ["prepare-db", "prepare-rpm-cert", "renovate", "log-sanitizer"]

  lemma {:induction false} StepNamesAfter(calls: seq<Call>)
    ensures var tasks := AfterCalls(INITIAL_TASKS, calls);
      |tasks| == 1 && StepNames(tasks[0].steps) == INITIAL_STEPS + Analyzers(calls)
  {
    if calls != [] {
      var n := |calls| - 1;
      StepNamesAfter(calls[..n]);
      BuildTaskVolumes(calls[..n]);
      var before := AfterCalls(INITIAL_TASKS, calls[..n]);
      assert before == [before[0]];
      OneTaskNames(before[0], calls[n]);
    }
  }

  lemma {:induction false} AnalyzersConcat(a: seq<Call>, b: seq<Call>)
    ensures Analyzers(a + b) == Analyzers(a) + Analyzers(b)
    decreases |b|
  {
    if b == [] {
      assert a + b == a;
    } else {
      AnalyzersConcat(a, b[..|b| - 1]);
      assert (a + b)[..|a + b| - 1] == a + b[..|b| - 1];
    }
  }

  lemma OneCall(call: Call, step: string)
    ensures MountsTo([call], step) == MountTo(call, step)
    ensures Analyzers([call]) == if call.KiteCall? then ["log-analyzer"] else []
  {
    hide MountTo;
    assert [call][..0] == [];
  }

  /** The paths at which the steps of a run with this plan mount something, in order. */
  function StepPlan(plan: Plan, step: string): seq<string> {
    match step
    case "prepare-rpm-cert" => if plan.rpm then ["/etc/renovate/secret"] else []
    case "renovate" =>
      ["/etc/renovate/config", "/etc/renovate/secret"]
      + (if plan.caConfigMap.Some? then ["/etc/pki/ca-trust/extracted/pem"] else [])
      + (if plan.docker then ["/home/renovate/.docker"] else [])
    case "log-analyzer" => if plan.kiteSecret.Some? then ["/etc/pki/kite-ca", "/var/run/secrets/kite"] else []
    case _ => []
  }

  lemma StepsDiffer()
    ensures "renovate" != "prepare-rpm-cert" && "renovate" != "log-analyzer" && "prepare-rpm-cert" != "log-analyzer"
  {
    assert |"renovate"| < |"log-analyzer"| < |"prepare-rpm-cert"|;
  }

  function PathTo(call: Call, step: string): seq<string> {
    if !call.KiteCall? && call.options.task == "build" && step in call.options.steps then [call.path] else []
  }

  lemma OnePath(call: Call, step: string)
    ensures PathsOf(MountsTo([call], step)) == PathTo(call, step)
    ensures Analyzers([call]) == if call.KiteCall? then ["log-analyzer"] else []
  {
    OneCall(call, step);
  }

  lemma PathsAppend(a: seq<Call>, b: seq<Call>, step: string)
    ensures PathsOf(MountsTo(a + b, step)) == PathsOf(MountsTo(a, step)) + PathsOf(MountsTo(b, step))
    ensures Analyzers(a + b) == Analyzers(a) + Analyzers(b)
  {
    MountsConcat(a, b, step);
    AnalyzersConcat(a, b);
    PathsConcat(MountsTo(a, step), MountsTo(b, step));
  }

  lemma TwoPaths(first: Call, second: Call, step: string)
    requires !first.KiteCall? && !second.KiteCall?
    ensures PathsOf(MountsTo([first, second], step)) == PathTo(first, step) + PathTo(second, step)
    ensures Analyzers([first, second]) == []
  {
    hide MountsTo, Analyzers, PathTo;
    assert [first, second] == [first] + [second];
    PathsAppend([first], [second], step);
    OnePath(first, step);
    OnePath(second, step);
  }

  lemma BasePaths(plan: Plan, suffix: nat -> string, step: string)
    ensures Analyzers(BaseCalls(plan, suffix)) == []
    ensures PathsOf(MountsTo(BaseCalls(plan, suffix), step)) ==
      (if step == "renovate" then ["/etc/renovate/config", "/etc/renovate/secret"] else [])
      + if step == "prepare-rpm-cert" && plan.rpm then ["/etc/renovate/secret"] else []
  {
    hide MountsTo, MountTo, Analyzers, PathsOf;
    StepsDiffer();
    var config := ConfigMapCall(plan.name, CONFIG_PATH, BUILD_RENOVATE);
    var secret := SecretCall(plan.name, SECRET_PATH, BUILD_RENOVATE, suffix(0));
    TwoPaths(config, secret, step);
    if plan.rpm {
      var rpm := SecretCall(plan.name + "-rpm-key", SECRET_PATH, BUILD_RPM, suffix(1));
      PathsAppend([config, secret], [rpm], step);
      OnePath(rpm, step);
    } else {
      assert BaseCalls(plan, suffix) == [config, secret];
    }
  }

  lemma RegistryPaths(plan: Plan, suffix: nat -> string, step: string)
    ensures Analyzers(RegistryCalls(plan, suffix)) == []
    ensures PathsOf(MountsTo(RegistryCalls(plan, suffix), step)) ==
      (if step == "renovate" && plan.caConfigMap.Some? then ["/etc/pki/ca-trust/extracted/pem"] else [])
      + if step == "renovate" && plan.docker then ["/home/renovate/.docker"] else []
  {
    var docker := SecretCall(plan.name, DOCKER_PATH, BUILD_RENOVATE, suffix(2));
    OnePath(docker, step);
    hide MountTo;
    if plan.caConfigMap.Some? {
      var ca := ConfigMapCall(plan.caConfigMap.value, CA_PATH, BUILD_RENOVATE);
      OnePath(ca, step);
      TwoPaths(ca, docker, step);
      assert [ca] + [docker] == [ca, docker];
      assert [ca] + [] == [ca];
    } else {
      assert [] + [docker] == [docker];
    }
  }

  lemma KitePath(step: string)
    ensures PathTo(KiteCall, step) == []
  {
  }

  lemma AnalyzerPath(call: Call, step: string)
    requires !call.KiteCall? && call.options == BUILD_ANALYZER
    ensures PathTo(call, step) == if step == "log-analyzer" then [call.path] else []
  {
  }

  lemma AnalyzerPaths(ca: Call, token: Call, step: string)
    requires !ca.KiteCall? && !token.KiteCall? && ca.options == token.options == BUILD_ANALYZER
    ensures Analyzers([KiteCall] + [ca, token]) == ["log-analyzer"]
    ensures PathsOf(MountsTo([KiteCall] + [ca, token], step))
      == if step == "log-analyzer" then [ca.path, token.path] else []
  {
    hide MountsTo, MountTo, Analyzers, PathsOf, PathTo;
    TwoPaths(ca, token, step);
    AnalyzerPath(ca, step);
    AnalyzerPath(token, step);
    OnePath(KiteCall, step);
    KitePath(step);
    PathsAppend([KiteCall], [ca, token], step);
  }

  lemma KitePaths(plan: Plan, suffix: nat -> string, step: string)
    ensures Analyzers(KiteCalls(plan, suffix)) == if plan.kiteSecret.Some? then ["log-analyzer"] else []
    ensures PathsOf(MountsTo(KiteCalls(plan, suffix), step)) ==
      if step == "log-analyzer" && plan.kiteSecret.Some? then ["/etc/pki/kite-ca", "/var/run/secrets/kite"] else []
  {
    if plan.kiteSecret.Some? {
      hide MountsTo, MountTo, Analyzers, PathsOf;
      var ca := ConfigMapCall("openshift-service-ca.crt", KITE_CA_PATH, BUILD_ANALYZER);
      var token := SecretCall(plan.kiteSecret.value, KITE_TOKEN_PATH, BUILD_ANALYZER, suffix(3));
      AnalyzerPaths(ca, token, step);
      assert KiteCalls(plan, suffix) == [KiteCall] + [ca, token];
    }
  }

  lemma PlannedPaths(plan: Plan, suffix: nat -> string, step: string)
    ensures PathsOf(MountsTo(PlannedCalls(plan, suffix), step)) == StepPlan(plan, step)
    ensures Analyzers(PlannedCalls(plan, suffix)) == if plan.kiteSecret.Some? then ["log-analyzer"] else []
  {
    var base, registry, kite := BaseCalls(plan, suffix), RegistryCalls(plan, suffix), KiteCalls(plan, suffix);
    StepsDiffer();
    BasePaths(plan, suffix, step);
    RegistryPaths(plan, suffix, step);
    KitePaths(plan, suffix, step);
    hide BaseCalls, RegistryCalls, KiteCalls, MountsTo, Analyzers, PathsOf;
    PathsAppend(base + registry, kite, step);
    PathsAppend(base, registry, step);
  }

  /** The step of that name mounts, at the path, a volume of the task that is made from the source. */
  predicate MountsFrom(task: Task, step: string, path: string, source: Source) {
    exists s, volume :: s in task.steps && s.name == step && volume in task.volumes && volume.source == source
                        && Mount(volume.name, path) in s.mounts
  }

  /** The build task of the PipelineRun. */
  function BuiltTask(plan: Plan, suffix: nat -> string): Task {
    var tasks := AfterCalls(INITIAL_TASKS, PlannedCalls(plan, suffix));
    BuildTaskVolumes(PlannedCalls(plan, suffix));
    tasks[0]
  }

  lemma BuiltTaskIs(plan: Plan, suffix: nat -> string)
    ensures AfterCalls(INITIAL_TASKS, PlannedCalls(plan, suffix)) == [BuiltTask(plan, suffix)]
    ensures var task, calls := BuiltTask(plan, suffix), PlannedCalls(plan, suffix);
      && task.volumes == Volumes(calls) && StepNames(task.steps) == INITIAL_STEPS + Analyzers(calls)
      && forall i | 0 <= i < |task.steps| :: task.steps[i].mounts == MountsTo(calls, task.steps[i].name)
  {
    var calls := PlannedCalls(plan, suffix);
    PlannedCallsOrderly(plan, suffix);
    OrderlyCallsClashFree(calls, 8);
    StepPaths(calls);
    BuildTaskVolumes(calls);
    StepNamesAfter(calls);
  }

  lemma PlannedMounts(plan: Plan, suffix: nat -> string, call: Call, step: string, i: nat)
    requires call in PlannedCalls(plan, suffix) && !call.KiteCall?
    requires call.options.task == "build" && step in call.options.steps
    requires i < |BuiltTask(plan, suffix).steps| && BuiltTask(plan, suffix).steps[i].name == step
    ensures MountsFrom(BuiltTask(plan, suffix), step, call.path, VolumeOf(call).source)
  {
    var calls, task := PlannedCalls(plan, suffix), BuiltTask(plan, suffix);
    BuiltTaskIs(plan, suffix);
    MountedByCall(calls, call, step);
    hide BuiltTask, PlannedCalls, MountsTo, VolumeOf;
    assert task.steps[i] in task.steps && VolumeOf(call) in task.volumes;
  }

  /**
   The run that createPipelineRun builds: its steps in order, the paths each mounts, and behind every path the config
   map or secret that belongs there.
   */
  lemma BuiltRun(plan: Plan, suffix: nat -> string)
    ensures var task := BuiltTask(plan, suffix);
      && StepNames(task.steps) == ["prepare-db", "prepare-rpm-cert", "renovate", "log-sanitizer"]
           + (if plan.kiteSecret.Some? then ["log-analyzer"] else [])
      && (forall i | 0 <= i < |task.steps| :: Paths(task.steps[i]) == StepPlan(plan, task.steps[i].name))
      && MountsFrom(task, "renovate", "/etc/renovate/config", FromConfigMap(plan.name))
      && MountsFrom(task, "renovate", "/etc/renovate/secret", FromSecret(plan.name))
      && (plan.rpm ==>
            MountsFrom(task, "prepare-rpm-cert", "/etc/renovate/secret", FromSecret(plan.name + "-rpm-key")))
      && (plan.caConfigMap.Some? ==>
            MountsFrom(task, "renovate", "/etc/pki/ca-trust/extracted/pem", FromConfigMap(plan.caConfigMap.value)))
      && (plan.docker ==> MountsFrom(task, "renovate", "/home/renovate/.docker", FromSecret(plan.name)))
      && (plan.kiteSecret.Some? ==>
            && MountsFrom(task, "log-analyzer", "/etc/pki/kite-ca", FromConfigMap("openshift-service-ca.crt"))
            && MountsFrom(task, "log-analyzer", "/var/run/secrets/kite", FromSecret(plan.kiteSecret.value)))
  {
    BuiltSteps(plan, suffix);
    hide BuiltTask, MountsFrom, StepPlan, Paths, StepNames;
    PlannedMounts(plan, suffix, ConfigMapCall(plan.name, CONFIG_PATH, BUILD_RENOVATE), "renovate", 2);
    PlannedMounts(plan, suffix, SecretCall(plan.name, SECRET_PATH, BUILD_RENOVATE, suffix(0)), "renovate", 2);
    OptionalMounts(plan, suffix);
  }

  lemma BuiltNames(plan: Plan, suffix: nat -> string)
    ensures var task := BuiltTask(plan, suffix);
      && StepNames(task.steps) == ["prepare-db", "prepare-rpm-cert", "renovate", "log-sanitizer"]
           + (if plan.kiteSecret.Some? then ["log-analyzer"] else [])
  {
    BuiltTaskIs(plan, suffix);
    PlannedPaths(plan, suffix, "renovate");
  }

  lemma BuiltSteps(plan: Plan, suffix: nat -> string)
    ensures var task := BuiltTask(plan, suffix);
      && StepNames(task.steps) == ["prepare-db", "prepare-rpm-cert", "renovate", "log-sanitizer"]
           + (if plan.kiteSecret.Some? then ["log-analyzer"] else [])
      && |task.steps| == (if plan.kiteSecret.Some? then 5 else 4)
      && task.steps[1].name == "prepare-rpm-cert" && task.steps[2].name == "renovate"
      && (plan.kiteSecret.Some? ==> task.steps[4].name == "log-analyzer")
      && (forall i | 0 <= i < |task.steps| :: Paths(task.steps[i]) == StepPlan(plan, task.steps[i].name))
  {
    BuiltNames(plan, suffix);
    BuiltTaskIs(plan, suffix);
    hide BuiltTask, MountsTo, StepPlan, Analyzers;
    var task := BuiltTask(plan, suffix);
    forall i | 0 <= i < |task.steps| ensures Paths(task.steps[i]) == StepPlan(plan, task.steps[i].name) {
      PlannedPaths(plan, suffix, task.steps[i].name);
    }
    var names := StepNames(task.steps);
    assert task.steps[1].name == names[1] && task.steps[2].name == names[2];
    assert plan.kiteSecret.Some? ==> task.steps[4].name == names[4];
  }

  lemma OptionalMounts(plan: Plan, suffix: nat -> string)
    requires var task := BuiltTask(plan, suffix);
      && |task.steps| >= 4 && task.steps[1].name == "prepare-rpm-cert" && task.steps[2].name == "renovate"
      && (plan.kiteSecret.Some? ==> |task.steps| == 5 && task.steps[4].name == "log-analyzer")
    ensures var task := BuiltTask(plan, suffix);
      && (plan.rpm ==>
            MountsFrom(task, "prepare-rpm-cert", "/etc/renovate/secret", FromSecret(plan.name + "-rpm-key")))
      && (plan.caConfigMap.Some? ==>
            MountsFrom(task, "renovate", "/etc/pki/ca-trust/extracted/pem", FromConfigMap(plan.caConfigMap.value)))
      && (plan.docker ==> MountsFrom(task, "renovate", "/home/renovate/.docker", FromSecret(plan.name)))
      && (plan.kiteSecret.Some? ==>
            && MountsFrom(task, "log-analyzer", "/etc/pki/kite-ca", FromConfigMap("openshift-service-ca.crt"))
            && MountsFrom(task, "log-analyzer", "/var/run/secrets/kite", FromSecret(plan.kiteSecret.value)))
  {
    hide BuiltTask, MountsFrom;
    if plan.rpm {
      PlannedMounts(plan, suffix, SecretCall(plan.name + "-rpm-key", SECRET_PATH, BUILD_RPM, suffix(1)),
          "prepare-rpm-cert", 1);
    }
    if plan.caConfigMap.Some? {
      PlannedMounts(plan, suffix, ConfigMapCall(plan.caConfigMap.value, CA_PATH, BUILD_RENOVATE), "renovate", 2);
    }
    if plan.docker {
      PlannedMounts(plan, suffix, SecretCall(plan.name, DOCKER_PATH, BUILD_RENOVATE, suffix(2)), "renovate", 2);
    }
    if plan.kiteSecret.Some? {
      PlannedMounts(plan, suffix, ConfigMapCall("openshift-service-ca.crt", KITE_CA_PATH, BUILD_ANALYZER),
          "log-analyzer", 4);
      PlannedMounts(plan, suffix, SecretCall(plan.kiteSecret.value, KITE_TOKEN_PATH, BUILD_ANALYZER, suffix(3)),
          "log-analyzer", 4);
    }
  }
}
