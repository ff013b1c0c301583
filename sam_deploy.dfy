/**
 * The SAM deploy dialog: it runs `sam build`, `sam package` and `sam deploy --no-execute-changeset`
 * one after the other, each only once the previous one has succeeded, and ends either by recording
 * the change set the deploy created or by showing an error.
 *
 * The processes themselves are not run here: what each stage meets when it starts (the configured
 * SAM executable, the resolved credentials, the exit code and standard output of its process) is an
 * input, and the change-set regular expression is an abstract matcher `findChangeSet`.
 */
module SamDeploy {
  import opened Wrappers
  import opened Text
  import opened OrderedMaps

  // ---------------------------------------------------------------------------------------------
  // Paths

  /** A file-system path as its segments; an absolute path starts with the empty segment. */
  type Path = seq<string>

  /** `Path.toString()`: the segments joined by `/`. */
  function PathText(p: Path): string {
    Join("/", p)
  }

  /** `path.parent`. */
  function Parent(p: Path): Path
    requires |p| >= 1
  {
    p[..|p| - 1]
  }

  /** `path.fileName`. */
  function FileName(p: Path): string
    requires |p| >= 1
  {
    p[|p| - 1]
  }

  /** The template the dialog deploys: the directory holding it and its file name. */
  datatype TemplateFile = TemplateFile(directory: Path, name: string) {
    function FilePath(): Path {
      directory + [name]
    }
  }

  /** `<templateDir>/.aws-sam/build`, where `sam build` writes its output. */
  function BuildDir(template: TemplateFile): (r: Path)
    ensures r == template.directory + [".aws-sam", "build"]
  {
    template.directory + [".aws-sam", "build"]
  }

  /** The stage result of `sam build`: `<buildDir>/template.yaml`. */
  function BuiltTemplate(template: TemplateFile): (r: Path)
    ensures |r| >= 1 && Parent(r) == BuildDir(template) && FileName(r) == "template.yaml"
  {
    BuildDir(template) + ["template.yaml"]
  }

  /** The stage result of `sam package`: `packaged-<name>` beside the built template. */
  function PackagedTemplate(built: Path): (r: Path)
    requires |built| >= 1
    ensures |r| >= 1 && Parent(r) == Parent(built) && FileName(r) == "packaged-" + FileName(built)
  {
    Parent(built) + ["packaged-" + FileName(built)]
  }

  /** Both derived templates live in the build directory under the template's directory. */
  lemma DerivedPaths(template: TemplateFile)
    ensures BuiltTemplate(template) == template.directory + [".aws-sam", "build", "template.yaml"]
    ensures PackagedTemplate(BuiltTemplate(template)) == template.directory + [".aws-sam", "build", "packaged-template.yaml"]
  {
    var built := BuiltTemplate(template);
    assert Parent(built) == template.directory + [".aws-sam", "build"];
    assert "packaged-" + FileName(built) == "packaged-template.yaml";
  }

  // ---------------------------------------------------------------------------------------------
  // Command lines

  /** A `GeneralCommandLine`: executable, working directory, environment and arguments. */
  datatype CommandLine = CommandLine(exePath: string, workDirectory: string, environment: OrderedMap<string>, parameters: seq<string>) {
    /** `withParameters(...)`: appends arguments. */
    function WithParameters(args: seq<string>): CommandLine {
      this.(parameters := parameters + args)
    }
  }

  /** An exception as the dialog sees it: whether its cause is a cancellation, and its message. */
  datatype DeployError = DeployError(causeIsCancellation: bool, message: Option<string>)

  const ExecutionFailedMessage := "serverless.application.deploy.execution_failed"
  const ChangeSetNotFoundMessage := "serverless.application.deploy.change_set_not_found"
  const CliNotConfiguredMessage := "sam.cli_not_configured"
  const AbortMessage := "serverless.application.deploy.abort"
  const UnknownErrorMessage := "serverless.application.deploy.unknown_error"

  /** `RuntimeException(message(key))`. */
  function RuntimeError(key: string): DeployError {
    DeployError(false, Some(key))
  }

  /**
   * The environment of every SAM command: the region's variables, then the credentials' variables
   * put over them, so that a credential variable wins over a region variable of the same name.
   */
  function CommandEnvironment(regionEnv: OrderedMap<string>, credentialEnv: OrderedMap<string>): OrderedMap<string> {
    PutAll(PutAll([], regionEnv), credentialEnv)
  }

  /** A variable reads as in the credentials when they set it, else as in the region's variables. */
  lemma CommandEnvironmentGet(regionEnv: OrderedMap<string>, credentialEnv: OrderedMap<string>, k: string)
    requires NoDuplicateKeys(regionEnv) && NoDuplicateKeys(credentialEnv)
    ensures Get(CommandEnvironment(regionEnv, credentialEnv), k) ==
      if k in Keys(credentialEnv) then Get(credentialEnv, k) else Get(regionEnv, k)
    ensures NoDuplicateKeys(CommandEnvironment(regionEnv, credentialEnv))
  {
    PutAllGet(PutAll([], regionEnv), credentialEnv, k);
    PutAllGet([], regionEnv, k);
    PutAllNoDuplicateKeys([], regionEnv);
    PutAllNoDuplicateKeys(PutAll([], regionEnv), credentialEnv);
  }

  /**
   * `createBaseCommand()`: the configured SAM executable run in the template's directory with the
   * merged environment. Resolving the credentials comes first and throws whatever the provider
   * throws; then, without a configured executable, it throws `sam.cli_not_configured`.
   */
  function CreateBaseCommand(executablePath: Option<string>, template: TemplateFile, regionEnv: OrderedMap<string>,
                             credentials: Result<OrderedMap<string>, DeployError>): (r: Result<CommandLine, DeployError>)
    ensures r.Failure? <==> credentials.Failure? || executablePath.None?
    ensures credentials.Failure? ==> r == Failure(credentials.error)
    ensures credentials.Success? && executablePath.None? ==> r == Failure(RuntimeError(CliNotConfiguredMessage))
    ensures r.Success? ==> r.value == CommandLine(executablePath.value, PathText(template.directory),
                                                  CommandEnvironment(regionEnv, credentials.value), [])
  {
    match credentials
    case Failure(e) => Failure(e)
    case Success(credentialEnv) =>
      match executablePath
      case None => Failure(RuntimeError(CliNotConfiguredMessage))
      case Some(exe) => Success(CommandLine(exe, PathText(template.directory), CommandEnvironment(regionEnv, credentialEnv), []))
  }

  /** The arguments of `sam build`. */
  function BuildArguments(template: TemplateFile): seq<string> {
    ["build", "--template", PathText(template.FilePath()), "--build-dir", PathText(BuildDir(template))]
  }

  /** The arguments of `sam package`. */
  function PackageArguments(built: Path, s3Bucket: string): seq<string>
    requires |built| >= 1
  {
    ["package", "--template-file", PathText(built), "--output-template-file", PathText(PackagedTemplate(built)),
     "--s3-bucket", s3Bucket]
  }

  /** One parameter override, `key=value`. */
  function Assignment(parameter: (string, string)): string {
    parameter.0 + "=" + parameter.1
  }

  /** `key=value` for every parameter, in the map's order. */
  function Assignments(parameters: OrderedMap<string>): (r: seq<string>)
    ensures |r| == |parameters|
    ensures forall i | 0 <= i < |parameters| :: r[i] == Assignment(parameters[i])
  {
    if parameters == [] then [] else [Assignment(parameters[0])] + Assignments(parameters[1..])
  }

  /** The fixed arguments of `sam deploy`: the change set is created, never executed. */
  function DeployFixedArguments(packaged: Path, stackName: string): seq<string> {
    ["deploy", "--template-file", PathText(packaged), "--stack-name", stackName,
     "--capabilities", "CAPABILITY_IAM", "CAPABILITY_NAMED_IAM", "--no-execute-changeset"]
  }

  /** The arguments of `sam deploy`, with `--parameter-overrides k=v ...` when there are parameters. */
  function DeployArguments(packaged: Path, stackName: string, parameters: OrderedMap<string>): seq<string> {
    DeployFixedArguments(packaged, stackName) +
    (if |parameters| == 0 then [] else ["--parameter-overrides"] + Assignments(parameters))
  }

  /**
   * The deploy arguments are the nine fixed ones ending in `--no-execute-changeset`, then, exactly
   * when there are parameters, `--parameter-overrides` and one `key=value` per parameter in order.
   */
  lemma DeployArgumentsShape(packaged: Path, stackName: string, parameters: OrderedMap<string>)
    ensures var r := DeployArguments(packaged, stackName, parameters);
      && |r| == (if |parameters| == 0 then 9 else 10 + |parameters|)
      && r[..9] == DeployFixedArguments(packaged, stackName)
      && r[8] == "--no-execute-changeset"
      && (|parameters| > 0 ==> r[9] == "--parameter-overrides")
      && (forall i | 0 <= i < |parameters| :: r[10 + i] == parameters[i].0 + "=" + parameters[i].1)
  {
  }

  /** Appending one more parameter appends one more assignment. */
  lemma AssignmentsSnoc(parameters: OrderedMap<string>, i: nat)
    requires i < |parameters|
    ensures Assignments(parameters[..i + 1]) == Assignments(parameters[..i]) + [Assignment(parameters[i])]
  {
  }

  /**
   * `runSamDeploy`'s command: the fixed arguments, then, when there are parameters, the override
   * flag and one `key=value` per entry appended in the map's order.
   */
  method BuildDeployCommand(base: CommandLine, packaged: Path, stackName: string, parameters: OrderedMap<string>)
    returns (command: CommandLine)
    ensures command == base.WithParameters(DeployArguments(packaged, stackName, parameters))
  {
    command := base.WithParameters(DeployFixedArguments(packaged, stackName));
    if |parameters| > 0 {
      command := command.WithParameters(["--parameter-overrides"]);
      ghost var prefix := base.parameters + DeployFixedArguments(packaged, stackName) + ["--parameter-overrides"];
      for i := 0 to |parameters|
        invariant command == base.(parameters := prefix + Assignments(parameters[..i]))
      {
        var assignment := Assignment(parameters[i]);
        AssignmentsSnoc(parameters, i);
        assert prefix + Assignments(parameters[..i]) + [assignment] == prefix + Assignments(parameters[..i + 1]);
        command := command.WithParameters([assignment]);
      }
      assert parameters[..|parameters|] == parameters;
    }
  }

  // ---------------------------------------------------------------------------------------------
  // Stages

  /** The stages, one log tab each. */
  datatype Stage = Build | Package | CreateChangeSet

  /** The stages in the order they run. */
  const StageOrder: seq<Stage> := [Build, Package, CreateChangeSet]

  /** What a terminated process reports. */
  datatype ProcessOutput = ProcessOutput(exitCode: int, stdout: string)

  /**
   * What a stage meets when it starts: the SAM executable setting, what resolving the credentials
   * gives (their environment variables, or the exception the provider throws), and its process.
   */
  datatype StageWorld = StageWorld(executablePath: Option<string>, credentials: Result<OrderedMap<string>, DeployError>,
                                   output: ProcessOutput)

  /**
   * `runCommand`'s rule: on exit code 0 the stage completes with what the extractor makes of the
   * output (which may itself fail), on any other exit code it fails with `execution_failed`.
   */
  function RunCommand<T>(output: ProcessOutput, extracted: Result<T, DeployError>): (r: Result<T, DeployError>)
    ensures output.exitCode == 0 ==> r == extracted
    ensures output.exitCode != 0 ==> r == Failure(RuntimeError(ExecutionFailedMessage))
  {
    if output.exitCode == 0 then extracted else Failure(RuntimeError(ExecutionFailedMessage))
  }

  /** The deploy stage's extractor: the change-set ARN found in stdout, or `change_set_not_found`. */
  function ExtractChangeSet(findChangeSet: string -> Option<string>, stdout: string): (r: Result<string, DeployError>)
    ensures r.Success? <==> findChangeSet(stdout).Some?
    ensures r.Success? ==> r.value == findChangeSet(stdout).value
    ensures r.Failure? ==> r.error == RuntimeError(ChangeSetNotFoundMessage)
  {
    match findChangeSet(stdout)
    case Some(arn) => Success(arn)
    case None => Failure(RuntimeError(ChangeSetNotFoundMessage))
  }

  /** A process the dialog started, with the stage whose log tab shows it. */
  datatype Launch = Launch(stage: Stage, command: CommandLine)

  /**
   * How `executeDeployment` ends: it throws before returning a future, or its future completes
   * exceptionally (after `handleError`), or it completes with the change set (after `finish`).
   */
  datatype Outcome = Threw(error: DeployError) | CompletedExceptionally(error: DeployError) | Completed(changeSet: string)

  /** The inputs of the dialog fixed at construction. */
  datatype DeployRequest = DeployRequest(stackName: string, template: TemplateFile, parameters: OrderedMap<string>,
                                         s3Bucket: string, autoExecute: bool)

  /** A run of the pipeline: how it ends, the processes it started, and how often the step advanced. */
  datatype Run = Run(outcome: Outcome, launched: seq<Launch>, stepsAdvanced: nat)

  /**
   * The pipeline as a function of what each stage meets: build, then package, then deploy, each
   * started only once the previous stage completed; the first failure ends the run.
   */
  function Deployment(request: DeployRequest, regionEnv: OrderedMap<string>, build: StageWorld, package: StageWorld,
                      deploy: StageWorld, findChangeSet: string -> Option<string>): Run
  {
    var template := request.template;
    match CreateBaseCommand(build.executablePath, template, regionEnv, build.credentials)
    case Failure(e) => Run(Threw(e), [], 0)
    case Success(buildBase) =>
      var buildLaunch := Launch(Build, buildBase.WithParameters(BuildArguments(template)));
      match RunCommand(build.output, Success(BuiltTemplate(template)))
      case Failure(e) => Run(CompletedExceptionally(e), [buildLaunch], 0)
      case Success(built) =>
        var rest := PackageOnward(request, regionEnv, built, package, deploy, findChangeSet);
        Run(rest.outcome, [buildLaunch] + rest.launched, rest.stepsAdvanced)
  }

  /** `runSamPackage(built)` and what follows it: the step advances before the command is made. */
  function PackageOnward(request: DeployRequest, regionEnv: OrderedMap<string>, built: Path, package: StageWorld,
                         deploy: StageWorld, findChangeSet: string -> Option<string>): (r: Run)
    requires |built| >= 1
    ensures !r.outcome.Threw?
  {
    match CreateBaseCommand(package.executablePath, request.template, regionEnv, package.credentials)
    case Failure(e) => Run(CompletedExceptionally(e), [], 1)
    case Success(packageBase) =>
      var packageLaunch := Launch(Package, packageBase.WithParameters(PackageArguments(built, request.s3Bucket)));
      match RunCommand(package.output, Success(PackagedTemplate(built)))
      case Failure(e) => Run(CompletedExceptionally(e), [packageLaunch], 1)
      case Success(packaged) =>
        var rest := DeployOnward(request, regionEnv, packaged, deploy, findChangeSet);
        Run(rest.outcome, [packageLaunch] + rest.launched, 1 + rest.stepsAdvanced)
  }

  /** `runSamDeploy(packaged)` and `finish`: the step advances before the command is made. */
  function DeployOnward(request: DeployRequest, regionEnv: OrderedMap<string>, packaged: Path, deploy: StageWorld,
                        findChangeSet: string -> Option<string>): (r: Run)
    ensures !r.outcome.Threw?
  {
    match CreateBaseCommand(deploy.executablePath, request.template, regionEnv, deploy.credentials)
    case Failure(e) => Run(CompletedExceptionally(e), [], 1)
    case Success(deployBase) =>
      var deployLaunch := Launch(CreateChangeSet,
        deployBase.WithParameters(DeployArguments(packaged, request.stackName, request.parameters)));
      match RunCommand(deploy.output, ExtractChangeSet(findChangeSet, deploy.output.stdout))
      case Failure(e) => Run(CompletedExceptionally(e), [deployLaunch], 1)
      case Success(changeSet) => Run(Completed(changeSet), [deployLaunch], 1)
  }

  /** Whether a stage can make its command: its credentials resolve and an executable is configured. */
  predicate CanStart(world: StageWorld) {
    world.credentials.Success? && world.executablePath.Some?
  }

  /** Whether a stage starts its process and that process exits with 0. */
  predicate StageSucceeds(world: StageWorld) {
    CanStart(world) && world.output.exitCode == 0
  }

  /** The stages start strictly in the order build, package, deploy: the launches are a prefix of it. */
  lemma DeploymentStageOrder(request: DeployRequest, regionEnv: OrderedMap<string>, build: StageWorld, package: StageWorld,
                             deploy: StageWorld, findChangeSet: string -> Option<string>)
    ensures var run := Deployment(request, regionEnv, build, package, deploy, findChangeSet);
      |run.launched| <= 3 && forall i | 0 <= i < |run.launched| :: run.launched[i].stage == StageOrder[i]
  {
  }

  /**
   * A stage is started only when every earlier stage succeeded, and a failed stage is the last
   * one started: package runs only after a successful build, deploy only after a successful package.
   */
  lemma DeploymentEachAfterPrevious(request: DeployRequest, regionEnv: OrderedMap<string>, build: StageWorld, package: StageWorld,
                                    deploy: StageWorld, findChangeSet: string -> Option<string>)
    ensures var run := Deployment(request, regionEnv, build, package, deploy, findChangeSet);
      && (|run.launched| >= 1 <==> CanStart(build))
      && (|run.launched| >= 2 <==> StageSucceeds(build) && CanStart(package))
      && (|run.launched| == 3 <==> StageSucceeds(build) && StageSucceeds(package) && CanStart(deploy))
  {
  }

  /**
   * The run completes exactly when all three processes exit with 0 and the deploy output names a
   * change set; that change set is the result and every stage was started.
   */
  lemma DeploymentCompletes(request: DeployRequest, regionEnv: OrderedMap<string>, build: StageWorld, package: StageWorld,
                            deploy: StageWorld, findChangeSet: string -> Option<string>)
    ensures var run := Deployment(request, regionEnv, build, package, deploy, findChangeSet);
      run.outcome.Completed? <==>
        StageSucceeds(build) && StageSucceeds(package) && StageSucceeds(deploy) && findChangeSet(deploy.output.stdout).Some?
    ensures var run := Deployment(request, regionEnv, build, package, deploy, findChangeSet);
      run.outcome.Completed? ==>
        run.outcome.changeSet == findChangeSet(deploy.output.stdout).value && |run.launched| == 3 && run.stepsAdvanced == 2
  {
  }

  /**
   * The run throws, with nothing started, exactly when the build stage cannot make its command:
   * its credentials fail to resolve (that exception is thrown) or no SAM executable is configured.
   */
  lemma DeploymentThrows(request: DeployRequest, regionEnv: OrderedMap<string>, build: StageWorld, package: StageWorld,
                         deploy: StageWorld, findChangeSet: string -> Option<string>)
    ensures var run := Deployment(request, regionEnv, build, package, deploy, findChangeSet);
      run.outcome.Threw? <==> !CanStart(build)
    ensures var run := Deployment(request, regionEnv, build, package, deploy, findChangeSet);
      run.outcome.Threw? ==>
        && run.launched == []
        && run.outcome.error == if build.credentials.Failure? then build.credentials.error else RuntimeError(CliNotConfiguredMessage)
  {
  }

  /**
   * A credential failure the dialog cannot mistake for one of the pipeline's own errors, which it
   * tells apart from other exceptions only by their message.
   */
  predicate CredentialsFailDistinctly(world: StageWorld) {
    world.credentials.Failure? ==>
      world.credentials.error != RuntimeError(ExecutionFailedMessage) && world.credentials.error != RuntimeError(ChangeSetNotFoundMessage)
  }

  /**
   * A failed run whose last started process exited with a non-zero code fails with
   * `execution_failed`; conversely, unless a later stage's credentials failed with that very
   * error, `execution_failed` means the last started process exited with a non-zero code.
   */
  lemma DeploymentExecutionFailed(request: DeployRequest, regionEnv: OrderedMap<string>, build: StageWorld, package: StageWorld,
                                  deploy: StageWorld, findChangeSet: string -> Option<string>)
    ensures var run := Deployment(request, regionEnv, build, package, deploy, findChangeSet);
      run.outcome.CompletedExceptionally? && |run.launched| >= 1 && [build, package, deploy][|run.launched| - 1].output.exitCode != 0 ==>
        run.outcome.error == RuntimeError(ExecutionFailedMessage)
    ensures var run := Deployment(request, regionEnv, build, package, deploy, findChangeSet);
      run.outcome.CompletedExceptionally? && |run.launched| >= 1 && run.outcome.error == RuntimeError(ExecutionFailedMessage)
        && CredentialsFailDistinctly(package) && CredentialsFailDistinctly(deploy) ==>
        [build, package, deploy][|run.launched| - 1].output.exitCode != 0
  {
    var run := Deployment(request, regionEnv, build, package, deploy, findChangeSet);
    if run.outcome.CompletedExceptionally? && |run.launched| >= 1 {
      if StageSucceeds(build) && StageSucceeds(package) && CanStart(deploy) {
        assert |run.launched| == 3;
      } else if StageSucceeds(build) && CanStart(package) {
        assert |run.launched| == 2;
      } else {
        assert |run.launched| == 1;
      }
    }
  }

  /**
   * A failed run fails with one of the three errors the pipeline raises or with the exception of
   * a later stage's credentials; a stage whose credentials fail after the previous stage succeeded
   * ends the run with that exception.
   */
  lemma DeploymentFailureCauses(request: DeployRequest, regionEnv: OrderedMap<string>, build: StageWorld, package: StageWorld,
                                deploy: StageWorld, findChangeSet: string -> Option<string>)
    ensures var run := Deployment(request, regionEnv, build, package, deploy, findChangeSet);
      run.outcome.CompletedExceptionally? ==>
        || run.outcome.error in {RuntimeError(ExecutionFailedMessage), RuntimeError(ChangeSetNotFoundMessage), RuntimeError(CliNotConfiguredMessage)}
        || (package.credentials.Failure? && run.outcome.error == package.credentials.error)
        || (deploy.credentials.Failure? && run.outcome.error == deploy.credentials.error)
    ensures StageSucceeds(build) && package.credentials.Failure? ==>
      Deployment(request, regionEnv, build, package, deploy, findChangeSet).outcome == CompletedExceptionally(package.credentials.error)
    ensures StageSucceeds(build) && StageSucceeds(package) && deploy.credentials.Failure? ==>
      Deployment(request, regionEnv, build, package, deploy, findChangeSet).outcome == CompletedExceptionally(deploy.credentials.error)
  {
  }

  /**
   * `change_set_not_found` is the outcome when every process succeeded but the deploy output names
   * no change set, and, unless a credential failure carries that very error, only then.
   */
  lemma DeploymentChangeSetNotFound(request: DeployRequest, regionEnv: OrderedMap<string>, build: StageWorld, package: StageWorld,
                                    deploy: StageWorld, findChangeSet: string -> Option<string>)
    ensures StageSucceeds(build) && StageSucceeds(package) && StageSucceeds(deploy) && findChangeSet(deploy.output.stdout).None? ==>
      Deployment(request, regionEnv, build, package, deploy, findChangeSet).outcome == CompletedExceptionally(RuntimeError(ChangeSetNotFoundMessage))
    ensures var run := Deployment(request, regionEnv, build, package, deploy, findChangeSet);
      run.outcome == CompletedExceptionally(RuntimeError(ChangeSetNotFoundMessage))
        && CredentialsFailDistinctly(package) && CredentialsFailDistinctly(deploy) ==>
        StageSucceeds(build) && StageSucceeds(package) && StageSucceeds(deploy) && findChangeSet(deploy.output.stdout).None?
  {
  }

  /**
   * The step counter advances once when the package stage begins and once more when the deploy
   * stage begins, whether or not that stage then succeeds; `finish` then sets it to the total.
   */
  lemma DeploymentStepsAdvanced(request: DeployRequest, regionEnv: OrderedMap<string>, build: StageWorld, package: StageWorld,
                                deploy: StageWorld, findChangeSet: string -> Option<string>)
    ensures Deployment(request, regionEnv, build, package, deploy, findChangeSet).stepsAdvanced ==
      (if StageSucceeds(build) then 1 else 0) + (if StageSucceeds(build) && StageSucceeds(package) then 1 else 0)
  {
  }

  /**
   * The process a stage starts: the SAM executable the stage found, run in the template's
   * directory with the region variables overlaid by that stage's credentials.
   */
  predicate StartedIn(launch: Launch, world: StageWorld, template: TemplateFile, regionEnv: OrderedMap<string>) {
    && CanStart(world)
    && launch.command.exePath == world.executablePath.value
    && launch.command.workDirectory == PathText(template.directory)
    && launch.command.environment == CommandEnvironment(regionEnv, world.credentials.value)
  }

  /**
   * Every process the run starts is started in its stage's environment, with the stage's
   * arguments: build on the template, package on the built template, deploy on the packaged one.
   */
  lemma DeploymentCommands(request: DeployRequest, regionEnv: OrderedMap<string>, build: StageWorld, package: StageWorld,
                           deploy: StageWorld, findChangeSet: string -> Option<string>)
    ensures var run := Deployment(request, regionEnv, build, package, deploy, findChangeSet);
      |run.launched| >= 1 ==>
        StartedIn(run.launched[0], build, request.template, regionEnv) &&
        run.launched[0].command.parameters == BuildArguments(request.template)
    ensures var run := Deployment(request, regionEnv, build, package, deploy, findChangeSet);
      |run.launched| >= 2 ==>
        StartedIn(run.launched[1], package, request.template, regionEnv) &&
        run.launched[1].command.parameters == PackageArguments(BuiltTemplate(request.template), request.s3Bucket)
    ensures var run := Deployment(request, regionEnv, build, package, deploy, findChangeSet);
      |run.launched| >= 3 ==>
        StartedIn(run.launched[2], deploy, request.template, regionEnv) &&
        run.launched[2].command.parameters ==
          DeployArguments(PackagedTemplate(BuiltTemplate(request.template)), request.stackName, request.parameters)
  {
  }

  /**
   * `handleError`'s message: `abort` when the cause is a cancellation, otherwise the exception's
   * message, otherwise `unknown_error`.
   */
  function ErrorMessage(error: DeployError): (r: string)
    ensures error.causeIsCancellation ==> r == AbortMessage
    ensures !error.causeIsCancellation && error.message.Some? ==> r == error.message.value
    ensures !error.causeIsCancellation && error.message.None? ==> r == UnknownErrorMessage
  {
    if error.causeIsCancellation then AbortMessage else error.message.GetOr(UnknownErrorMessage)
  }

  /** The errors the pipeline raises are shown with their own message. */
  lemma StageErrorMessages()
    ensures ErrorMessage(RuntimeError(ExecutionFailedMessage)) == ExecutionFailedMessage
    ensures ErrorMessage(RuntimeError(ChangeSetNotFoundMessage)) == ChangeSetNotFoundMessage
    ensures ErrorMessage(RuntimeError(CliNotConfiguredMessage)) == CliNotConfiguredMessage
  {
  }

  /** The dialog's buttons. */
  datatype DialogAction = OkAction | CancelAction

  /** `NUMBER_OF_STEPS`: `finish` sets the step counter to it. */
  const NumberOfSteps := 3

  // ---------------------------------------------------------------------------------------------
  // The dialog

  class SamDeployDialog {
    const request: DeployRequest
    /** `region.toEnvironmentVariables()`: the region is fixed when the dialog is created. */
    const regionEnv: OrderedMap<string>

    var currentStep: int
    var okEnabled: bool
    var cancelEnabled: bool
    var changeSetName: Option<string>
    var errorText: Option<string>
    /** Whether `progressIndicator.cancel()` was called. */
    var progressCanceled: bool
    /** Whether `doOKAction()` was requested after a successful deployment. */
    var okPerformed: bool
    /** The processes started so far, one log tab each. */
    var launched: seq<Launch>

    /** A dialog created with `execute = false`: nothing has run, both buttons are enabled. */
    constructor (request: DeployRequest, regionEnv: OrderedMap<string>)
      ensures this.request == request && this.regionEnv == regionEnv
      ensures currentStep == 0 && okEnabled && cancelEnabled
      ensures changeSetName == None && errorText == None && !progressCanceled && !okPerformed && launched == []
    {
      this.request := request;
      this.regionEnv := regionEnv;
      currentStep := 0;
      okEnabled := true;
      cancelEnabled := true;
      changeSetName := None;
      errorText := None;
      progressCanceled := false;
      okPerformed := false;
      launched := [];
    }

    /** `createActions()`: no buttons when the change set is executed automatically, else OK and Cancel. */
    function CreateActions(): (r: seq<DialogAction>)
      ensures r == [] <==> request.autoExecute
      ensures !request.autoExecute ==> r == [OkAction, CancelAction]
    {
      if request.autoExecute then [] else [OkAction, CancelAction]
    }

    /** `advanceStep()`. */
    method AdvanceStep()
      modifies this
      ensures currentStep == old(currentStep) + 1
      ensures okEnabled == old(okEnabled) && cancelEnabled == old(cancelEnabled)
      ensures changeSetName == old(changeSetName) && errorText == old(errorText)
      ensures progressCanceled == old(progressCanceled) && okPerformed == old(okPerformed) && launched == old(launched)
    {
      currentStep := currentStep + 1;
    }

    /** `finish(changeSet)`: records the change set, completes the steps and enables both buttons. */
    method Finish(changeSet: string) returns (r: string)
      modifies this
      ensures r == changeSet
      ensures changeSetName == Some(changeSet) && currentStep == NumberOfSteps && okEnabled && cancelEnabled
      ensures okPerformed == (old(okPerformed) || request.autoExecute)
      ensures errorText == old(errorText) && progressCanceled == old(progressCanceled) && launched == old(launched)
    {
      changeSetName := Some(changeSet);
      currentStep := NumberOfSteps;
      okEnabled := true;
      cancelEnabled := true;
      if request.autoExecute {
        okPerformed := true;
      }
      r := changeSet;
    }

    /** `handleError(error)`: shows the message, cancels the progress and enables only Cancel. */
    method HandleError(error: DeployError)
      modifies this
      ensures errorText == Some(ErrorMessage(error)) && progressCanceled && cancelEnabled
      ensures okEnabled == old(okEnabled) && currentStep == old(currentStep) && changeSetName == old(changeSetName)
      ensures okPerformed == old(okPerformed) && launched == old(launched)
    {
      errorText := Some(ErrorMessage(error));
      progressCanceled := true;
      cancelEnabled := true;
    }

    /** `runCommand(title, command)`: opens the stage's log tab and starts its process. */
    method StartProcess(stage: Stage, command: CommandLine)
      modifies this
      ensures launched == old(launched) + [Launch(stage, command)]
      ensures currentStep == old(currentStep) && okEnabled == old(okEnabled) && cancelEnabled == old(cancelEnabled)
      ensures changeSetName == old(changeSetName) && errorText == old(errorText)
      ensures progressCanceled == old(progressCanceled) && okPerformed == old(okPerformed)
    {
      launched := launched + [Launch(stage, command)];
    }

    /**
     * `executeDeployment()`: disables both buttons, then runs the stages as `Deployment` describes;
     * a completed run goes through `finish`, a failed one through `handleError`, and a run that
     * throws at once leaves both buttons disabled.
     */
    method ExecuteDeployment(build: StageWorld, package: StageWorld, deploy: StageWorld, findChangeSet: string -> Option<string>)
      returns (outcome: Outcome)
      modifies this
      ensures var run := Deployment(request, regionEnv, build, package, deploy, findChangeSet);
        && outcome == run.outcome
        && launched == old(launched) + run.launched
        && currentStep == (if outcome.Completed? then NumberOfSteps else old(currentStep) + run.stepsAdvanced)
      ensures okEnabled == outcome.Completed?
      ensures cancelEnabled == !outcome.Threw?
      ensures changeSetName == if outcome.Completed? then Some(outcome.changeSet) else old(changeSetName)
      ensures errorText == if outcome.CompletedExceptionally? then Some(ErrorMessage(outcome.error)) else old(errorText)
      ensures progressCanceled == (old(progressCanceled) || outcome.CompletedExceptionally?)
      ensures okPerformed == (old(okPerformed) || (outcome.Completed? && request.autoExecute))
    {
      ghost var run := Deployment(request, regionEnv, build, package, deploy, findChangeSet);
      ghost var launched0 := launched;
      okEnabled := false;
      cancelEnabled := false;
      var template := request.template;

      // runSamBuild runs before any future exists: its failure to create the command is thrown.
      var buildBase := CreateBaseCommand(build.executablePath, template, regionEnv, build.credentials);
      if buildBase.Failure? {
        assert run == Run(Threw(buildBase.error), [], 0);
        return Threw(buildBase.error);
      }
      var buildLaunch := Launch(Build, buildBase.value.WithParameters(BuildArguments(template)));
      StartProcess(Build, buildBase.value.WithParameters(BuildArguments(template)));
      var built := RunCommand(build.output, Success(BuiltTemplate(template)));
      if built.Failure? {
        assert run == Run(CompletedExceptionally(built.error), [buildLaunch], 0);
        HandleError(built.error);
        return CompletedExceptionally(built.error);
      }
      ghost var rest := PackageOnward(request, regionEnv, built.value, package, deploy, findChangeSet);
      assert run == Run(rest.outcome, [buildLaunch] + rest.launched, rest.stepsAdvanced);
      outcome := RunPackageOnward(built.value, package, deploy, findChangeSet);
      assert launched == launched0 + [buildLaunch] + rest.launched;
    }

    /** The package stage and what follows it, once the build completed with `built`. */
    method RunPackageOnward(built: Path, package: StageWorld, deploy: StageWorld, findChangeSet: string -> Option<string>)
      returns (outcome: Outcome)
      requires |built| >= 1
      modifies this
      ensures var run := PackageOnward(request, regionEnv, built, package, deploy, findChangeSet);
        && outcome == run.outcome
        && launched == old(launched) + run.launched
        && currentStep == (if outcome.Completed? then NumberOfSteps else old(currentStep) + run.stepsAdvanced)
      ensures okEnabled == (old(okEnabled) || outcome.Completed?)
      ensures cancelEnabled
      ensures changeSetName == if outcome.Completed? then Some(outcome.changeSet) else old(changeSetName)
      ensures errorText == if outcome.CompletedExceptionally? then Some(ErrorMessage(outcome.error)) else old(errorText)
      ensures progressCanceled == (old(progressCanceled) || outcome.CompletedExceptionally?)
      ensures okPerformed == (old(okPerformed) || (outcome.Completed? && request.autoExecute))
    {
      AdvanceStep();
      var packageBase := CreateBaseCommand(package.executablePath, request.template, regionEnv, package.credentials);
      if packageBase.Failure? {
        HandleError(packageBase.error);
        return CompletedExceptionally(packageBase.error);
      }
      StartProcess(Package, packageBase.value.WithParameters(PackageArguments(built, request.s3Bucket)));
      var packaged := RunCommand(package.output, Success(PackagedTemplate(built)));
      if packaged.Failure? {
        HandleError(packaged.error);
        return CompletedExceptionally(packaged.error);
      }
      outcome := RunDeployOnward(packaged.value, deploy, findChangeSet);
    }

    /** The deploy stage and `finish`, once the package completed with `packaged`. */
    method RunDeployOnward(packaged: Path, deploy: StageWorld, findChangeSet: string -> Option<string>)
      returns (outcome: Outcome)
      modifies this
      ensures var run := DeployOnward(request, regionEnv, packaged, deploy, findChangeSet);
        && outcome == run.outcome
        && launched == old(launched) + run.launched
        && currentStep == (if outcome.Completed? then NumberOfSteps else old(currentStep) + run.stepsAdvanced)
      ensures okEnabled == (old(okEnabled) || outcome.Completed?)
      ensures cancelEnabled
      ensures changeSetName == if outcome.Completed? then Some(outcome.changeSet) else old(changeSetName)
      ensures errorText == if outcome.CompletedExceptionally? then Some(ErrorMessage(outcome.error)) else old(errorText)
      ensures progressCanceled == (old(progressCanceled) || outcome.CompletedExceptionally?)
      ensures okPerformed == (old(okPerformed) || (outcome.Completed? && request.autoExecute))
    {
      AdvanceStep();
      var deployBase := CreateBaseCommand(deploy.executablePath, request.template, regionEnv, deploy.credentials);
      if deployBase.Failure? {
        HandleError(deployBase.error);
        return CompletedExceptionally(deployBase.error);
      }
      var deployCommand := BuildDeployCommand(deployBase.value, packaged, request.stackName, request.parameters);
      StartProcess(CreateChangeSet, deployCommand);
      var changeSet := RunCommand(deploy.output, ExtractChangeSet(findChangeSet, deploy.output.stdout));
      if changeSet.Failure? {
        HandleError(changeSet.error);
        return CompletedExceptionally(changeSet.error);
      }
      var name := Finish(changeSet.value);
      outcome := Completed(name);
    }
  }
}
