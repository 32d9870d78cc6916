/** The deployment artefacts the conformance tests inspect. Each file may be missing. Two
    things the tests call out to are given as data instead of being run: the shell syntax
    checker's report on each script, and what the YAML decoder made of each manifest. */
module Artifacts {
  import opened Outcomes
  import opened Values

  /** What `bash -n <script>` reported: its exit status and what it wrote to stderr. */
  datatype SyntaxCheck = SyntaxCheck(returnCode: int, stderr: string)

  /** A shell script, and the syntax checker's report on it (consulted only when the
      script exists). */
  datatype Script = Script(text: Option<string>, syntax: SyntaxCheck)

  /** A compose manifest, and what the YAML decoder returned for it: a tree, or the message
      of the decode error it raised (consulted only when the file exists). */
  datatype Manifest = Manifest(text: Option<string>, decoded: Result<Value>)

  /** The repository root and every artefact under it. */
  datatype Workspace = Workspace(
    root: string,
    nginxConf: Option<string>,
    supervisordConf: Option<string>,
    dockerfile: Option<string>,
    compose: Manifest,
    composeProd: Manifest,
    entrypoint: Script,
    deploy: Script,
    multiUserManager: Script,
    updateAndRedeploy: Script,
    publishAll: Script)

  /** The path a test prints for an artefact: `root / name`. */
  function PathOf(w: Workspace, name: string): string {
    w.root + "/" + name
  }
}
