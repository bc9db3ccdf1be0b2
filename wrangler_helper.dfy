/**
 * scripts/wrangler-helper.js: reads a command, an environment and a config file from
 * the command line, checks the environment, picks the .env file to load and builds
 * the one `pnpm exec wrangler ...` command line it runs.
 *
 * `exec(line)` tells whether `execSync(line)` returns normally; loading the .env file
 * and printing are not modelled beyond naming the file that is loaded.
 */
module WranglerHelper {
  import opened Wrappers
  import opened Strings

  /** What `parseArgs` returns. */
  datatype ParsedArgs = ParsedArgs(command: string, environment: string, configFile: string)

  const Defaults := ParsedArgs("", "preview", "")

  const Dashes := "--"
  const ModeName := Dashes + "mode"
  const EnvName := Dashes + "env"
  const ConfigName := Dashes + "config"
  /** "--mode=", "--env=" and "--config=" */
  const ModeFlag := ModeName + "="
  const EnvFlagText := EnvName + "="
  const ConfigFlag := ConfigName + "="

  /** `arg.split('=')[1]`: the text between the first and the second '='. */
  function FlagValue(arg: string): string
    requires '=' in arg
  {
    SecondField(arg, '=')
  }

  /** What the `forEach` callback of `parseArgs` does with one argument. */
  function ParseStep(st: ParsedArgs, arg: string): ParsedArgs {
    if StartsWith(arg, ModeFlag) then
      assert arg[|ModeName|] == ModeFlag[|ModeName|];
      st.(command := FlagValue(arg))
    else if StartsWith(arg, EnvFlagText) then
      assert arg[|EnvName|] == EnvFlagText[|EnvName|];
      st.(environment := FlagValue(arg))
    else if StartsWith(arg, ConfigFlag) then
      assert arg[|ConfigName|] == ConfigFlag[|ConfigName|];
      st.(configFile := FlagValue(arg))
    else if !StartsWith(arg, Dashes) then
      if st.command == "" then st.(command := arg)
      else if st.environment == "preview" && st.configFile == "" then st.(environment := arg)
      else st
    else st
  }

  /** The arguments taken left to right from the defaults. */
  function ParseAll(args: seq<string>): ParsedArgs {
    if args == [] then Defaults else ParseStep(ParseAll(args[..|args| - 1]), args[|args| - 1])
  }

  /** `parseArgs()` over `process.argv.slice(2)`. */
  method ParseArgs(args: seq<string>) returns (parsed: ParsedArgs)
    ensures parsed == ParseAll(args)
  {
    var command, environment, configFile := "", "preview", "";
    for i := 0 to |args|
      invariant ParsedArgs(command, environment, configFile) == ParseAll(args[..i])
    {
      var arg := args[i];
      assert ParseAll(args[..i + 1]) == ParseStep(ParseAll(args[..i]), arg) by {
        assert args[..i + 1][..i] == args[..i];
      }
      if StartsWith(arg, ModeFlag) {
        assert arg[|ModeName|] == ModeFlag[|ModeName|];
        command := FlagValue(arg);
      } else if StartsWith(arg, EnvFlagText) {
        assert arg[|EnvName|] == EnvFlagText[|EnvName|];
        environment := FlagValue(arg);
      } else if StartsWith(arg, ConfigFlag) {
        assert arg[|ConfigName|] == ConfigFlag[|ConfigName|];
        configFile := FlagValue(arg);
      } else if !StartsWith(arg, Dashes) {
        if command == "" {
          command := arg;
        } else if environment == "preview" && configFile == "" {
          environment := arg;
        }
      }
    }
    assert args[..|args|] == args;
    parsed := ParsedArgs(command, environment, configFile);
  }

  /** An argument `name=v` starts with `name=`, and its flag value is `v` up to any further '='. */
  lemma FlagPrefix(name: string, v: string)
    requires '=' !in name
    ensures StartsWith(name + "=" + v, name + "=")
    ensures '=' in name + "=" + v
    ensures FlagValue(name + "=" + v) == TakeUntil(v, '=')
  {
    PrefixOfConcat(name + "=", v);
    SecondFieldOfFlag(name, v, '=');
  }

  lemma ModeFlagStep(st: ParsedArgs, v: string)
    ensures ParseStep(st, ModeFlag + v) == st.(command := TakeUntil(v, '='))
  {
    FlagPrefix(ModeName, v);
  }

  /** How the `startsWith` tests of `parseArgs` see an `--env=` argument. */
  lemma EnvFlagArg(v: string)
    ensures var arg := EnvFlagText + v;
      StartsWith(arg, EnvFlagText) && !StartsWith(arg, ModeFlag) && '=' in arg && FlagValue(arg) == TakeUntil(v, '=')
  {
    var arg := EnvFlagText + v;
    assert StartsWith(arg, EnvFlagText) && '=' in arg && FlagValue(arg) == TakeUntil(v, '=') by {
      FlagPrefix(EnvName, v);
    }
    assert !StartsWith(arg, ModeFlag) by {
      assert arg[2] == EnvName[2] == 'e';
      assert ModeFlag[2] == ModeName[2] == 'm';
      DiffersAt(arg, ModeFlag, 2);
    }
  }

  /** How the `startsWith` tests of `parseArgs` see a `--config=` argument. */
  lemma ConfigFlagArg(v: string)
    ensures var arg := ConfigFlag + v;
      && StartsWith(arg, ConfigFlag) && !StartsWith(arg, ModeFlag) && !StartsWith(arg, EnvFlagText)
      && '=' in arg && FlagValue(arg) == TakeUntil(v, '=')
  {
    var arg := ConfigFlag + v;
    assert StartsWith(arg, ConfigFlag) && '=' in arg && FlagValue(arg) == TakeUntil(v, '=') by {
      FlagPrefix(ConfigName, v);
    }
    assert arg[2] == ConfigName[2] == 'c';
    assert !StartsWith(arg, ModeFlag) by {
      assert ModeFlag[2] == ModeName[2] == 'm';
      DiffersAt(arg, ModeFlag, 2);
    }
    assert !StartsWith(arg, EnvFlagText) by {
      assert EnvFlagText[2] == EnvName[2] == 'e';
      DiffersAt(arg, EnvFlagText, 2);
    }
  }

  lemma EnvFlagStep(st: ParsedArgs, v: string)
    ensures ParseStep(st, EnvFlagText + v) == st.(environment := TakeUntil(v, '='))
  {
    EnvFlagArg(v);
  }

  lemma ConfigFlagStep(st: ParsedArgs, v: string)
    ensures ParseStep(st, ConfigFlag + v) == st.(configFile := TakeUntil(v, '='))
  {
    ConfigFlagArg(v);
  }

  /**
   * A flag sets its own field to the text after its '=' (up to any second '='),
   * overriding whatever came before, and leaves the other fields alone.
   */
  lemma FlagsOverride(args: seq<string>, v: string)
    ensures var before, w := ParseAll(args), TakeUntil(v, '=');
      && ParseAll(args + [ModeFlag + v]) == before.(command := w)
      && ParseAll(args + [EnvFlagText + v]) == before.(environment := w)
      && ParseAll(args + [ConfigFlag + v]) == before.(configFile := w)
  {
    assert (args + [ModeFlag + v])[..|args|] == args;
    assert (args + [EnvFlagText + v])[..|args|] == args;
    assert (args + [ConfigFlag + v])[..|args|] == args;
    ModeFlagStep(ParseAll(args), v);
    EnvFlagStep(ParseAll(args), v);
    ConfigFlagStep(ParseAll(args), v);
  }

  /** Each flag begins with the two dashes. */
  lemma FlagsStartWithDashes()
    ensures StartsWith(ModeFlag, Dashes) && StartsWith(EnvFlagText, Dashes) && StartsWith(ConfigFlag, Dashes)
  {
    PrefixOfConcat(Dashes, "mode");
    PrefixOfConcat(ModeName, "=");
    PrefixTransitive(ModeFlag, ModeName, Dashes);
    PrefixOfConcat(Dashes, "env");
    PrefixOfConcat(EnvName, "=");
    PrefixTransitive(EnvFlagText, EnvName, Dashes);
    PrefixOfConcat(Dashes, "config");
    PrefixOfConcat(ConfigName, "=");
    PrefixTransitive(ConfigFlag, ConfigName, Dashes);
  }

  /**
   * A positional argument fills an empty command; otherwise it becomes the environment
   * only while that is still 'preview' and no config has been given; else it is dropped.
   * Other `--` arguments are ignored.
   */
  lemma PositionalAndIgnored(args: seq<string>, arg: string)
    ensures var before, after := ParseAll(args), ParseAll(args + [arg]);
      && (!StartsWith(arg, Dashes) ==>
            after == (if before.command == "" then before.(command := arg)
                      else if before.environment == "preview" && before.configFile == "" then before.(environment := arg)
                      else before))
      && ((StartsWith(arg, Dashes) && !StartsWith(arg, ModeFlag) && !StartsWith(arg, EnvFlagText) &&
           !StartsWith(arg, ConfigFlag)) ==> after == before)
  {
    assert (args + [arg])[..|args|] == args;
    if !StartsWith(arg, Dashes) {
      FlagsStartWithDashes();
      assert !StartsWith(arg, ModeFlag) && !StartsWith(arg, EnvFlagText) && !StartsWith(arg, ConfigFlag) by {
        if StartsWith(arg, ModeFlag) { PrefixTransitive(arg, ModeFlag, Dashes); }
        if StartsWith(arg, EnvFlagText) { PrefixTransitive(arg, EnvFlagText, Dashes); }
        if StartsWith(arg, ConfigFlag) { PrefixTransitive(arg, ConfigFlag, Dashes); }
      }
    }
  }

  /** `envFiles` */
  function EnvFile(env: string): Option<string> {
    if env == "preview" then Some(".env.development")
    else if env == "production" then Some(".env.production")
    else if env == "local" then Some(".env.local")
    else None
  }

  /** `branchMap[env]` as interpolated into a template: "undefined" for other names. */
  function Branch(env: Option<string>): string {
    if env == Some("preview") then "develop"
    else if env == Some("production") then "main"
    else if env == Some("local") then "local"
    else "undefined"
  }

  /** `dbNames[env]` as interpolated: "undefined" for other names. */
  const DbPrefix := "automationa-tools-"

  function DbName(env: string): string {
    if env == "preview" then DbPrefix + "dev-db"
    else if env == "production" then DbPrefix + "prod-db"
    else if env == "local" then DbPrefix + "local-db"
    else "undefined"
  }

  /** A string argument interpolated into a template (`null` reads "null"). */
  function Text(s: Option<string>): string {
    if s.Some? then s.value else "null"
  }

  predicate Truthy(s: Option<string>) {
    s.Some? && s.value != ""
  }

  const Wrangler := "pnpm exec wrangler "

  /** The wrangler sub-commands `main` passes. */
  const DevCommand := "pages dev"
  const PagesDeploy := "pages deploy"
  const DeployCommand := PagesDeploy + " ./out --project-name=automationa-tools"
  const TailCommand := "tail"
  const LocalDbCommand := "d1 execute " + DbName("local") + " --local --json"

  function DbCommand(env: string): string {
    "d1 execute " + DbName(env) + " --json"
  }

  /** The environment name `--env=` receives: 'local' becomes 'development'. */
  function EnvFlag(env: string): string {
    if env == "local" then "development" else env
  }

  /** The command line `runWranglerCommand` builds, or its refusal to deploy Pages locally. */
  datatype Built = Line(text: string) | LocalPagesDeployRefused

  /** The command-building part of `runWranglerCommand(cmd, env, config)`. */
  function WranglerCommand(cmd: string, env: Option<string>, config: Option<string>): Built {
    if Truthy(config) then Line(Wrangler + cmd + " --config=" + config.value)
    else if Contains(cmd, PagesDeploy) then
      if env == Some("local") then LocalPagesDeployRefused
      else Line(Wrangler + cmd + " --branch=" + Branch(env))
    else
      Line(Wrangler + cmd + " --env=" + (if env.Some? then EnvFlag(env.value) else Text(env)))
  }

  /** What the rest of `main` does once the .env file is loaded. */
  datatype Action =
    | Executed(commandLine: string, succeeded: bool)  // exit 1 when `execSync` throws
    | PagesDeployRefused                              // "ローカル環境ではPagesデプロイは…", exit 1
    | ConfigNotAllowed                                // deploy or tail with --config, exit 1
    | LlmConfigShown
    | UsageShown

  datatype Outcome =
    | InvalidEnvironment(env: string)                   // exit 1 before loading anything
    | Proceeded(envFile: Option<string>, action: Action)

  function ExitCode(o: Outcome): nat {
    match o
    case InvalidEnvironment(_) => 1
    case Proceeded(_, action) =>
      match action
      case Executed(_, succeeded) => if succeeded then 0 else 1
      case PagesDeployRefused => 1
      case ConfigNotAllowed => 1
      case LlmConfigShown => 0
      case UsageShown => 0
  }

  /** `runWranglerCommand(cmd, env, config)` with the command run through `exec`. */
  function RunWrangler(cmd: string, env: Option<string>, config: Option<string>,
                       exec: string -> bool): Action {
    match WranglerCommand(cmd, env, config)
    case LocalPagesDeployRefused => PagesDeployRefused
    case Line(text) => Executed(text, exec(text))
  }

  /** `environment === 'development' ? 'preview' : environment` */
  function MappedEnv(environment: string): string {
    if environment == "development" then "preview" else environment
  }

  predicate ValidEnv(env: string) {
    EnvFile(env).Some?
  }

  /** `main()` for the parsed arguments. */
  function HelperMain(args: ParsedArgs, exec: string -> bool): Outcome {
    var configFile := args.configFile;
    var config := if configFile != "" then Some(configFile) else None;
    var mappedEnv := MappedEnv(args.environment);
    if configFile == "" && !ValidEnv(mappedEnv) then InvalidEnvironment(mappedEnv)
    else
      var envFile := EnvFile(if configFile != "" then "local" else mappedEnv);
      var action :=
        if args.command == "dev" then
          if configFile != "" then RunWrangler(DevCommand, None, config, exec)
          else RunWrangler(DevCommand, Some(mappedEnv), None, exec)
        else if args.command == "deploy" then
          if configFile != "" then ConfigNotAllowed
          else RunWrangler(DeployCommand, Some(mappedEnv), None, exec)
        else if args.command == "tail" then
          if configFile != "" then ConfigNotAllowed
          else RunWrangler(TailCommand, Some(mappedEnv), None, exec)
        else if args.command == "db" then
          if configFile != "" then RunWrangler(LocalDbCommand, Some("development"), None, exec)
          else RunWrangler(DbCommand(mappedEnv), Some(mappedEnv), None, exec)
        else if args.command == "llm-config" then LlmConfigShown
        else UsageShown;
      Proceeded(envFile, action)
  }

  /** The deploy command is a Pages deploy. */
  lemma DeployIsPagesDeploy()
    ensures Contains(DeployCommand, PagesDeploy)
  {
    OccursAtStart(PagesDeploy, " ./out --project-name=automationa-tools");
  }

  /** Where a 'p' can stand in the database commands. */
  lemma DbCommandLetters()
    ensures 'p' !in "d1 execute " + DbPrefix
    ensures 'p' !in "dev-db --json" && 'p' !in "local-db --json" && 'p' !in "rod-db --json"
    ensures 'p' !in "local-db --local --json"
  {
  }

  /** The local database query is not a Pages deploy. */
  lemma LocalDbNotPagesDeploy()
    ensures !Contains(LocalDbCommand, PagesDeploy)
  {
    DbCommandLetters();
    assert LocalDbCommand == ("d1 execute " + DbPrefix) + "local-db --local --json";
    NoPagesDeployWithoutP("d1 execute " + DbPrefix, "local-db --local --json");
  }

  /** Appending text without a 'p' to text without a 'p' cannot create a Pages deploy. */
  lemma NoPagesDeployWithoutP(a: string, b: string)
    requires 'p' !in a && 'p' !in b
    ensures !Contains(a + b, PagesDeploy)
  {
    AbsentFirstChar(a + b, PagesDeploy);
  }

  lemma ProductionDbNotPagesDeploy()
    ensures !Contains(DbCommand("production"), PagesDeploy)
  {
    DbCommandLetters();
    assert DbCommand("production") == ("d1 execute " + DbPrefix) + ['p'] + "rod-db --json";
    AbsentAround("d1 execute " + DbPrefix, 'p', "rod-db --json", PagesDeploy);
  }

  /** No environment's database query is a Pages deploy. */
  lemma DbNotPagesDeploy(env: string)
    requires ValidEnv(env)
    ensures !Contains(DbCommand(env), PagesDeploy)
  {
    if env == "production" {
      ProductionDbNotPagesDeploy();
    } else {
      DbCommandLetters();
      var suffix := if env == "preview" then "dev-db --json" else "local-db --json";
      assert DbCommand(env) == ("d1 execute " + DbPrefix) + suffix;
      NoPagesDeployWithoutP("d1 execute " + DbPrefix, suffix);
    }
  }

  /** With a config file the command is `pnpm exec wrangler <cmd> --config=<config>`, whatever env. */
  lemma ConfigWins(cmd: string, env: Option<string>, config: string)
    requires config != ""
    ensures WranglerCommand(cmd, env, Some(config)) == Line("pnpm exec wrangler " + cmd + " --config=" + config)
  {
  }

  /**
   * Without a config, a Pages deploy gets `--branch=` (preview: develop, production: main)
   * and is refused for 'local'; any other command gets `--env=`, with 'local' passed as
   * 'development'.
   */
  lemma CommandWithoutConfig(cmd: string, env: string)
    ensures Contains(cmd, PagesDeploy) ==> (
      && (env == "local" <==> WranglerCommand(cmd, Some(env), None) == LocalPagesDeployRefused)
      && (env == "preview" ==> WranglerCommand(cmd, Some(env), None) == Line(Wrangler + cmd + " --branch=" + "develop"))
      && (env == "production" ==> WranglerCommand(cmd, Some(env), None) == Line(Wrangler + cmd + " --branch=" + "main")))
    ensures !Contains(cmd, PagesDeploy) ==>
      WranglerCommand(cmd, Some(env), None) ==
        Line(Wrangler + cmd + " --env=" + (if env == "local" then "development" else env))
  {
  }

  /**
   * Without a config file, an environment other than preview, production and local (after
   * 'development' becomes 'preview') stops with exit 1; with one, no check is made and
   * .env.local is loaded.
   */
  lemma EnvironmentValidation(args: ParsedArgs, exec: string -> bool)
    ensures var o := HelperMain(args, exec);
      && (args.configFile == "" ==>
            (o.InvalidEnvironment? <==>
               MappedEnv(args.environment) !in {"preview", "production", "local"}))
      && (args.configFile != "" ==> o.Proceeded? && o.envFile == Some(".env.local"))
      && (args.environment == "development" && args.configFile == "" ==>
            o.Proceeded? && o.envFile == Some(".env.development"))
  {
  }

  /** deploy and tail refuse a config file. */
  lemma ConfigRefused(command: string, environment: string, configFile: string, exec: string -> bool)
    requires configFile != "" && (command == "deploy" || command == "tail")
    ensures HelperMain(ParsedArgs(command, environment, configFile), exec) ==
      Proceeded(Some(".env.local"), ConfigNotAllowed)
  {
  }

  /**
   * With a config file, db queries the local database with `--local`, under the
   * 'development' environment, and dev passes the config file on.
   */
  lemma ConfigDbAndDev(environment: string, configFile: string, exec: string -> bool)
    requires configFile != ""
    ensures var line := Wrangler + LocalDbCommand + " --env=" + "development";
      HelperMain(ParsedArgs("db", environment, configFile), exec) ==
        Proceeded(Some(".env.local"), Executed(line, exec(line)))
    ensures var line := Wrangler + DevCommand + " --config=" + configFile;
      HelperMain(ParsedArgs("dev", environment, configFile), exec) ==
        Proceeded(Some(".env.local"), Executed(line, exec(line)))
  {
    LocalDbNotPagesDeploy();
  }

  /**
   * Without a config file, deploy goes to the environment's branch and is refused for
   * 'local'; db uses the environment's database name; tail and dev pass `--env=`.
   */
  lemma CommandsWithoutConfig(environment: string, exec: string -> bool)
    requires ValidEnv(MappedEnv(environment))
    ensures var m := MappedEnv(environment);
      var o := HelperMain(ParsedArgs("deploy", environment, ""), exec);
      var line := Wrangler + DeployCommand + " --branch=";
      && (m == "preview" ==> o.action == Executed(line + "develop", exec(line + "develop")))
      && (m == "production" ==> o.action == Executed(line + "main", exec(line + "main")))
      && (m == "local" ==> o.action == PagesDeployRefused && ExitCode(o) == 1)
    ensures var m := MappedEnv(environment);
      var line := Wrangler + DbCommand(m) + " --env=" + EnvFlag(m);
      HelperMain(ParsedArgs("db", environment, ""), exec).action == Executed(line, exec(line))
    ensures var m := MappedEnv(environment);
      var line := Wrangler + TailCommand + " --env=" + EnvFlag(m);
      HelperMain(ParsedArgs("tail", environment, ""), exec).action == Executed(line, exec(line))
  {
    DeployIsPagesDeploy();
    DbNotPagesDeploy(MappedEnv(environment));
  }

  /** The exit code is 1 exactly when the environment is invalid, a command is refused or fails. */
  lemma ExitCodeCases(args: ParsedArgs, exec: string -> bool)
    ensures var o := HelperMain(args, exec);
      ExitCode(o) == 1 <==>
        o.InvalidEnvironment? || o.action.PagesDeployRefused? || o.action.ConfigNotAllowed? ||
        (o.action.Executed? && !exec(o.action.commandLine))
    ensures var o := HelperMain(args, exec);
      args.command !in {"dev", "deploy", "tail", "db"} && o.Proceeded? ==> ExitCode(o) == 0
  {
  }
}
