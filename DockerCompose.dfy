/** The compose manifest tests: whether each manifest exists and decodes, and rules over
    the decoded tree (required keys, services that must name an image or a build, a port
    and a mount somewhere in a list). The decoder is not modelled: each manifest carries
    what it returned. */
module DockerCompose {
  import opened Outcomes
  import opened Text
  import opened Rules
  import opened Values
  import opened Artifacts

  datatype ComposeFile = Dev | Prod

  function FileName(f: ComposeFile): string {
    match f
    case Dev => "docker-compose.yml"
    case Prod => "docker-compose.prod.yml"
  }

  function ManifestOf(w: Workspace, f: ComposeFile): Manifest {
    match f
    case Dev => w.compose
    case Prod => w.composeProd
  }

  /** `v[k1][k2]...`: str subscripts applied from the root, the first exception winning. */
  function Follow(v: Value, keys: seq<string>): (r: Result<Value>)
    decreases |keys|
    ensures keys == [] ==> r == Ok(v)
    ensures keys != [] && r.Ok? ==> HasKey(v, keys[0])
  {
    if keys == [] then Ok(v)
    else
      var x :- Index(v, keys[0]);
      Follow(x, keys[1..])
  }

  /** One statement of a test body, applied to the decoded tree `config`. */
  datatype Step =
    | HasMember(path: seq<string>, key: string, message: string)
      // assertIn(key, config[path], message)
    | NotNone(path: seq<string>, message: string)
      // assertIsNotNone(config[path], message)
    | NonEmpty(path: seq<string>, message: string)
      // assertTrue(len(config[path]) > 0, message)
    | ShownNonEmpty(path: seq<string>, message: string)
      // assertTrue(len(str(config[path])) > 0, message)
    | EveryServiceBuilt
      // for each service: if 'build' not in service, assertIn('image', service, ...)
    | SomeShows(path: seq<string>, key: string, lit: string, message: string)
      // assertTrue(any(lit in str(x) for x in config[path].get(key, [])), message)

  /** A service that passes the image rule: it has a `build` key, or else an `image` key. */
  predicate Built(service: Value) {
    In("build", service) == Ok(true) || In("image", service) == Ok(true)
  }

  /** A mapping (or list, or str) with neither `build` nor `image`. */
  predicate Unbuilt(service: Value) {
    In("build", service) == Ok(false) && In("image", service) == Ok(false)
  }

  function ImageMessage(service: string): string {
    "Service '" + service + "' must have 'image' or 'build'"
  }

  /** The loop body for one service: `'build' not in service`, then `assertIn('image', ...)`. */
  function ServiceBuilt(name: string, service: Value): (r: Result<Verdict>)
    ensures r == Ok(Pass) <==> Built(service)
    ensures r.Ok? && !r.value.Pass? <==> Unbuilt(service)
    ensures r.Ok? && !r.value.Pass? ==> r.value == Fail(ImageMessage(name))
    ensures r.Err? <==> service.Null? || service.Scalar?
  {
    var hasBuild :- In("build", service);
    if hasBuild then Ok(Pass)
    else
      match In("image", service)
      case Ok(hasImage) => Ok(Check(hasImage, ImageMessage(name)))
      case Err(e) => Err(e)
  }

  /** The loop over `config['services'].items()`: it stops at the first service that has
      neither key, and raises at the first service `in` cannot search. */
  function ServicesBuilt(es: seq<Entry>): (r: Result<Verdict>)
    decreases |es|
    ensures r == Ok(Pass) <==> forall i :: 0 <= i < |es| ==> Built(es[i].value)
    ensures r.Ok? && !r.value.Pass? ==>
              exists i :: (0 <= i < |es| && Unbuilt(es[i].value) && r.value == Fail(ImageMessage(es[i].key)) &&
                           forall j :: 0 <= j < i ==> Built(es[j].value))
    ensures r.Err? <==>
              exists i :: (0 <= i < |es| && (es[i].value.Null? || es[i].value.Scalar?) &&
                           forall j :: 0 <= j < i ==> Built(es[j].value))
  {
    if es == [] then Ok(Pass)
    else
      var here := ServiceBuilt(es[0].key, es[0].value);
      if here != Ok(Pass) then here
      else
        var r := ServicesBuilt(es[1..]);
        BuiltAfterFirst(es, r);
        r
  }

  /** The loop's verdict after a first service that is built is the verdict of the rest of
      the loop: every service is built iff every later one is, and a first unbuilt or
      unsearchable service among the rest is the first one of all the services too. */
  lemma BuiltAfterFirst(es: seq<Entry>, r: Result<Verdict>)
    requires es != [] && Built(es[0].value)
    requires r == Ok(Pass) <==> forall i :: 0 <= i < |es[1..]| ==> Built(es[1..][i].value)
    requires r.Ok? && !r.value.Pass? ==>
               exists i :: (0 <= i < |es[1..]| && Unbuilt(es[1..][i].value) && r.value == Fail(ImageMessage(es[1..][i].key)) &&
                            forall j :: 0 <= j < i ==> Built(es[1..][j].value))
    requires r.Err? <==>
               exists i :: (0 <= i < |es[1..]| && (es[1..][i].value.Null? || es[1..][i].value.Scalar?) &&
                            forall j :: 0 <= j < i ==> Built(es[1..][j].value))
    ensures r == Ok(Pass) <==> forall i :: 0 <= i < |es| ==> Built(es[i].value)
    ensures r.Ok? && !r.value.Pass? ==>
              exists i :: (0 <= i < |es| && Unbuilt(es[i].value) && r.value == Fail(ImageMessage(es[i].key)) &&
                           forall j :: 0 <= j < i ==> Built(es[j].value))
    ensures r.Err? <==>
              exists i :: (0 <= i < |es| && (es[i].value.Null? || es[i].value.Scalar?) &&
                           forall j :: 0 <= j < i ==> Built(es[j].value))
  {
    var tail := es[1..];
    assert forall i :: 1 <= i < |es| ==> es[i] == tail[i - 1];
    if r.Ok? && !r.value.Pass? {
      var k :| 0 <= k < |tail| && Unbuilt(tail[k].value) && r.value == Fail(ImageMessage(tail[k].key)) &&
               forall j :: 0 <= j < k ==> Built(tail[j].value);
      FirstAfterFirst(es, k);
    }
    if r.Err? {
      var k :| 0 <= k < |tail| && (tail[k].value.Null? || tail[k].value.Scalar?) &&
               forall j :: 0 <= j < k ==> Built(tail[j].value);
      FirstAfterFirst(es, k);
    }
    if exists i :: (0 <= i < |es| && (es[i].value.Null? || es[i].value.Scalar?) &&
                    forall j :: 0 <= j < i ==> Built(es[j].value)) {
      var i :| 0 <= i < |es| && (es[i].value.Null? || es[i].value.Scalar?) &&
               forall j :: 0 <= j < i ==> Built(es[j].value);
      assert i != 0;
      FirstAfterFirst(es, i - 1);
    }
  }

  /** Position `k` of the rest of the services is position `k + 1` of all of them, and the
      services before it are built in the rest iff they are built among all (the first
      one being built). */
  lemma FirstAfterFirst(es: seq<Entry>, k: nat)
    requires k + 1 < |es| && Built(es[0].value)
    ensures es[1..][k] == es[k + 1]
    ensures (forall j :: 0 <= j < k ==> Built(es[1..][j].value)) <==> (forall j :: 0 <= j < k + 1 ==> Built(es[j].value))
  {
    var tail := es[1..];
    if forall j :: 0 <= j < k ==> Built(tail[j].value) {
      forall j | 0 <= j < k + 1 ensures Built(es[j].value) {
        if j > 0 { assert es[j] == tail[j - 1]; }
      }
    }
    if forall j :: 0 <= j < k + 1 ==> Built(es[j].value) {
      forall j | 0 <= j < k ensures Built(tail[j].value) {
        assert tail[j] == es[j + 1];
      }
    }
  }

  /** One step: its verdict, or the exception it raised. */
  function StepResult(s: Step, config: Value): (r: Result<Verdict>)
    ensures r.Ok? ==> !r.value.Error?
    ensures !s.EveryServiceBuilt? && Follow(config, s.path).Err? ==> r == Err(Follow(config, s.path).error)
    ensures s.HasMember? ==>
              (r == Ok(Pass) <==> Follow(config, s.path).Ok? && In(s.key, Follow(config, s.path).value) == Ok(true))
    ensures s.HasMember? && Follow(config, s.path).Ok? ==>
              var found := In(s.key, Follow(config, s.path).value);
              (found.Err? ==> r == Err(found.error)) && (found == Ok(false) ==> r == Ok(Fail(s.message)))
    ensures s.NotNone? ==>
              (r == Ok(Pass) <==> Follow(config, s.path).Ok? && !Follow(config, s.path).value.Null?)
    ensures s.NotNone? && Follow(config, s.path) == Ok(Null) ==> r == Ok(Fail(s.message))
    ensures s.NonEmpty? && Follow(config, s.path).Ok? ==>
              var n := Len(Follow(config, s.path).value);
              (n.Err? ==> r == Err(n.error)) && (n == Ok(0) ==> r == Ok(Fail(s.message))) &&
              (n.Ok? && n.value > 0 ==> r == Ok(Pass))
    ensures s.ShownNonEmpty? && Follow(config, s.path).Ok? ==>
              (r == Ok(Pass) <==> |Display(Follow(config, s.path).value)| > 0) &&
              (r != Ok(Pass) ==> r == Ok(Fail(s.message)))
    ensures s.SomeShows? && Follow(config, s.path).Ok? && Follow(config, s.path).value.Dict? ==>
              var x := Follow(config, s.path).value;
              (!HasKey(x, s.key) ==> r == Ok(Fail(s.message))) &&
              (Index(x, s.key).Ok? && Index(x, s.key).value.List? ==>
                 (r == Ok(Pass) <==> exists i :: 0 <= i < |Index(x, s.key).value.items| &&
                                                  Contains(Display(Index(x, s.key).value.items[i]), s.lit)))
  {
    match s
    case HasMember(path, key, message) =>
      var x :- Follow(config, path);
      var found :- In(key, x);
      Ok(Check(found, message))
    case NotNone(path, message) =>
      var x :- Follow(config, path);
      Ok(Check(!x.Null?, message))
    case NonEmpty(path, message) =>
      var x :- Follow(config, path);
      var n :- Len(x);
      Ok(Check(n > 0, message))
    case ShownNonEmpty(path, message) =>
      var x :- Follow(config, path);
      Ok(Check(|Display(x)| > 0, message))
    case EveryServiceBuilt =>
      var services :- Follow(config, ["services"]);
      var es :- Items(services);
      ServicesBuilt(es)
    case SomeShows(path, key, lit, message) =>
      var x :- Follow(config, path);
      var xs :- Get(x, key, List([]));
      var items :- Iterate(xs);
      Ok(Check(AnyShows(items, lit), message))
  }

  /** A test body: its steps in order, up to the first that fails or raises. */
  function RunSteps(steps: seq<Step>, config: Value): (v: Verdict)
    decreases |steps|
    ensures v.Pass? <==> forall i :: 0 <= i < |steps| ==> StepResult(steps[i], config) == Ok(Pass)
    ensures !v.Pass? ==>
              exists i :: (0 <= i < |steps| && v == Settle(StepResult(steps[i], config)) &&
                           forall j :: 0 <= j < i ==> StepResult(steps[j], config) == Ok(Pass))
  {
    if steps == [] then Pass
    else
      var first := Settle(StepResult(steps[0], config));
      if !first.Pass? then first
      else
        var v := RunSteps(steps[1..], config);
        StepsAfterFirst(steps, config, v);
        v
  }

  /** The run of the steps after a passing first one is the run of them all. */
  lemma StepsAfterFirst(steps: seq<Step>, config: Value, v: Verdict)
    requires steps != [] && StepResult(steps[0], config) == Ok(Pass)
    requires v.Pass? <==> forall i :: 0 <= i < |steps[1..]| ==> StepResult(steps[1..][i], config) == Ok(Pass)
    requires !v.Pass? ==>
               exists i :: (0 <= i < |steps[1..]| && v == Settle(StepResult(steps[1..][i], config)) &&
                            forall j :: 0 <= j < i ==> StepResult(steps[1..][j], config) == Ok(Pass))
    ensures v.Pass? <==> forall i :: 0 <= i < |steps| ==> StepResult(steps[i], config) == Ok(Pass)
    ensures !v.Pass? ==>
              exists i :: (0 <= i < |steps| && v == Settle(StepResult(steps[i], config)) &&
                           forall j :: 0 <= j < i ==> StepResult(steps[j], config) == Ok(Pass))
  {
    var tail := steps[1..];
    if v.Pass? {
      forall i | 0 <= i < |steps| ensures StepResult(steps[i], config) == Ok(Pass) {
        if i > 0 { assert steps[i] == tail[i - 1]; }
      }
    } else {
      var i :| 0 <= i < |tail| && v == Settle(StepResult(tail[i], config)) &&
               forall j :: 0 <= j < i ==> StepResult(tail[j], config) == Ok(Pass);
      assert steps[i + 1] == tail[i];
      forall j | 0 <= j < i + 1 ensures StepResult(steps[j], config) == Ok(Pass) {
        if j > 0 { assert steps[j] == tail[j - 1]; }
      }
    }
  }

  /** What a test does with its manifest. */
  datatype Action =
    | Exists                               // assertTrue(path.exists(), ...)
    | ValidYaml                            // safe_load, failing on a decode error
    | OnContent(asserts: seq<Assertion>)   // assertions on the raw text
    | OnTree(steps: seq<Step>)             // statements on the decoded tree

  datatype Test = Test(name: string, file: ComposeFile, action: Action)

  /** One test. Every test but the existence tests opens the manifest, so a missing file
      makes it err; a decode error is an assertion failure only in the valid-YAML tests. */
  function Run(t: Test, w: Workspace): (v: Verdict)
    ensures t.action.Exists? ==> (v.Pass? <==> ManifestOf(w, t.file).text.Some?)
    ensures t.action.Exists? && ManifestOf(w, t.file).text.None? ==>
              v == Fail(FileName(t.file) + " not found at " + PathOf(w, FileName(t.file)))
    ensures !t.action.Exists? && ManifestOf(w, t.file).text.None? ==>
              v == Error(MissingFile(PathOf(w, FileName(t.file))))
    ensures t.action.OnContent? && ManifestOf(w, t.file).text.Some? ==>
              v == CheckAll(t.action.asserts, ManifestOf(w, t.file).text.value)
    ensures t.action.OnTree? && ManifestOf(w, t.file).text.Some? ==>
              match ManifestOf(w, t.file).decoded
              case Err(e) => v == Error(e)
              case Ok(config) => v == RunSteps(t.action.steps, config)
  {
    var m := ManifestOf(w, t.file);
    var name := FileName(t.file);
    var path := PathOf(w, name);
    if t.action.Exists? then ExistsCheck(m.text, name + " not found at " + path)
    else if m.text.None? then Error(MissingFile(path))
    else match t.action
      case ValidYaml =>
        (match m.decoded
         case Ok(_) => Pass
         case Err(e) => Fail(name + " is not valid YAML: " + e))
      case OnContent(asserts) => CheckAll(asserts, m.text.value)
      case OnTree(steps) =>
        (match m.decoded
         case Err(e) => Error(e)
         case Ok(config) => RunSteps(steps, config))
  }

  function Member1(file: ComposeFile, name: string, path: seq<string>, key: string, message: string): Test {
    Test(name, file, OnTree([HasMember(path, key, message)]))
  }

  /** `test_docker_compose_has_version` and its prod twin. */
  function VersionTest(f: ComposeFile): Test {
    Test(if f == Dev then "test_docker_compose_has_version" else "test_docker_compose_prod_has_version", f,
         OnTree([HasMember([], "version", MissingVersion(f)),
                 NotNone(["version"], "version field should not be None")]))
  }

  function MissingVersion(f: ComposeFile): string {
    if f == Dev then "docker-compose.yml missing 'version' field"
    else "docker-compose.prod.yml missing 'version' field"
  }

  /** `test_docker_compose_has_services` and its prod twin. */
  function ServicesTest(f: ComposeFile): Test {
    Test(if f == Dev then "test_docker_compose_has_services" else "test_docker_compose_prod_has_services", f,
         OnTree([HasMember([], "services", MissingServices(f)), NonEmpty(["services"], NoServices(f))]))
  }

  function MissingServices(f: ComposeFile): string {
    if f == Dev then "docker-compose.yml missing 'services' field"
    else "docker-compose.prod.yml missing 'services' field"
  }

  function NoServices(f: ComposeFile): string {
    if f == Dev then "No services defined" else "No services defined in prod"
  }

  /** `test_docker_compose_yml_valid_yaml` and its prod twin. */
  function YamlTest(f: ComposeFile): Test {
    Test(if f == Dev then "test_docker_compose_yml_valid_yaml" else "test_docker_compose_prod_yml_valid_yaml", f,
         ValidYaml)
  }

  /** A service-presence test: `service` must be a key of the manifest's `services`. */
  function ServiceTest(f: ComposeFile, name: string, service: string): Test {
    Member1(f, name, ["services"], service, FileName(f) + " must have '" + service + "' service")
  }

  const ImagesTest := Test("test_docker_compose_services_have_images", Dev, OnTree([EveryServiceBuilt]))

  const PortTest := Test("test_docker_compose_tikzit_exposes_port_8080", Dev,
    OnTree([SomeShows(["services", "tikzit"], "ports", "8080", "tikzit service should expose port 8080 for noVNC")]))

  const EnvTest := Test("test_docker_compose_prod_env_variable_usage", Prod,
    OnContent([Assertion(Has("${VNC_PASSWORD}"), "docker-compose.prod.yml should use environment variables")]))

  const MountTest := Test("test_docker_compose_prod_nginx_conf_mount", Prod,
    OnTree([SomeShows(["services", "nginx"], "volumes", "nginx.conf", "nginx service should mount nginx.conf")]))

  const NetworksTest := Test("test_docker_compose_prod_has_networks", Prod,
    OnTree([HasMember([], "networks", "docker-compose.prod.yml should define networks"),
            HasMember(["networks"], "tikzit_net", "docker-compose.prod.yml must have 'tikzit_net' network")]))

  const OnNetworkTest := Test("test_docker_compose_prod_services_on_network", Prod,
    OnTree([HasMember(["services", "tikzit_default"], "networks", "Service 'tikzit_default' must be on a network"),
            HasMember(["services", "nginx"], "networks", "Service 'nginx' must be on a network")]))

  const VersionFormatTest := Test("test_docker_compose_version_format", Dev,
    OnTree([ShownNonEmpty(["version"], "Version should not be empty")]))

  const CertbotTest := Test("test_docker_compose_prod_certbot_has_volumes", Prod,
    OnTree([HasMember(["services"], "certbot", "docker-compose.prod.yml should have certbot service"),
            HasMember(["services", "certbot"], "volumes", "certbot service must have volumes for SSL certs")]))

  /** The `TestDockerCompose` class. */
  const Tests: seq<Test> := [
    Test("test_docker_compose_yml_exists", Dev, Exists),
    Test("test_docker_compose_prod_yml_exists", Prod, Exists),
    YamlTest(Dev),
    YamlTest(Prod),
    VersionTest(Dev),
    VersionTest(Prod),
    ServicesTest(Dev),
    ServicesTest(Prod),
    ImagesTest,
    ServiceTest(Prod, "test_docker_compose_prod_tikzit_service_exists", "tikzit_default"),
    ServiceTest(Prod, "test_docker_compose_prod_nginx_service_exists", "nginx"),
    NetworksTest,
    Member1(Prod, "test_docker_compose_prod_has_volumes", [], "volumes", "docker-compose.prod.yml should define volumes"),
    OnNetworkTest,
    VersionFormatTest,
    Member1(Prod, "test_docker_compose_prod_nginx_has_volumes", ["services", "nginx"], "volumes",
            "nginx service should have volumes for config and certs"),
    CertbotTest,
    ServiceTest(Dev, "test_docker_compose_dev_tikzit_service_exists", "tikzit"),
    Member1(Dev, "test_docker_compose_tikzit_has_ports", ["services", "tikzit"], "ports",
            "tikzit service should expose ports"),
    PortTest,
    EnvTest,
    MountTest
  ]

  /** Two subscripts from the root. */
  lemma FollowTwo(config: Value, k1: string, k2: string)
    ensures Follow(config, [k1, k2]) == (var x :- Index(config, k1); Index(x, k2))
  {
    assert [k1, k2][1..] == [k2];
    assert [k2][1..] == [];
  }

  /** A one-step tree test on an existing manifest that decodes: its verdict is that step. */
  lemma OneStep(t: Test, w: Workspace, config: Value)
    requires t.action.OnTree? && |t.action.steps| == 1
    requires ManifestOf(w, t.file).text.Some? && ManifestOf(w, t.file).decoded == Ok(config)
    ensures Run(t, w) == Settle(StepResult(t.action.steps[0], config))
  {
    assert t.action.steps[1..] == [];
  }

  /** A decode error fails the valid-YAML test with the decoder's message and makes every
      tree test of that manifest err: no rule ever sees a partial tree. */
  lemma DecodeErrorRule(w: Workspace, i: nat, e: string)
    requires i < |Tests|
    requires ManifestOf(w, Tests[i].file).text.Some? && ManifestOf(w, Tests[i].file).decoded == Err(e)
    ensures Tests[i].action.ValidYaml? ==> Run(Tests[i], w) == Fail(FileName(Tests[i].file) + " is not valid YAML: " + e)
    ensures Tests[i].action.OnTree? ==> Run(Tests[i], w) == Error(e)
    ensures Run(Tests[i], w).Fail? ==> Tests[i].action.ValidYaml? || Tests[i].action.OnContent?
  {
  }

  /** The valid-YAML test passes exactly when the decoder returns a tree. */
  lemma ValidYamlRule(w: Workspace, f: ComposeFile)
    requires ManifestOf(w, f).text.Some?
    ensures Run(YamlTest(f), w).Pass? <==> ManifestOf(w, f).decoded.Ok?
  {
  }

  /** The version tests: `version` must be a key of the mapping and its value not None.
      `'version' in config` raises on an empty manifest (None) or a scalar, and a string
      or a list that holds `version` raises at the subscript. */
  lemma VersionRule(w: Workspace, f: ComposeFile, config: Value)
    requires ManifestOf(w, f).text.Some? && ManifestOf(w, f).decoded == Ok(config)
    ensures var v := Run(VersionTest(f), w);
            (v.Pass? <==> HasKey(config, "version") && !Index(config, "version").value.Null?) &&
            ((config.Null? || config.Scalar?) ==> v == Error(In("version", config).error)) &&
            (In("version", config) == Ok(false) ==>
               v == Fail(if f == Dev then "docker-compose.yml missing 'version' field"
                         else "docker-compose.prod.yml missing 'version' field")) &&
            (In("version", config) == Ok(true) && !config.Dict? ==> v == Error(SubscriptError(config))) &&
            (HasKey(config, "version") && Index(config, "version").value.Null? ==>
               v == Fail("version field should not be None"))
  {
    KeyThenNotNone(config, "version", MissingVersion(f), "version field should not be None");
  }

  /** The services tests: `services` must be a key and its value of non-zero length; a
      value without a length (None, a number) raises, and so does `'services' in config`
      on an empty manifest or a scalar, and the subscript on a string or a list. */
  lemma ServicesRule(w: Workspace, f: ComposeFile, config: Value)
    requires ManifestOf(w, f).text.Some? && ManifestOf(w, f).decoded == Ok(config)
    ensures var v := Run(ServicesTest(f), w);
            (v.Pass? <==> HasKey(config, "services") && Len(Index(config, "services").value).Ok? &&
                          Len(Index(config, "services").value).value > 0) &&
            ((config.Null? || config.Scalar?) ==> v == Error(In("services", config).error)) &&
            (In("services", config) == Ok(true) && !config.Dict? ==> v == Error(SubscriptError(config))) &&
            (In("services", config) == Ok(false) ==>
               v == Fail(if f == Dev then "docker-compose.yml missing 'services' field"
                         else "docker-compose.prod.yml missing 'services' field")) &&
            (HasKey(config, "services") && Len(Index(config, "services").value) == Ok(0) ==>
               v == Fail(if f == Dev then "No services defined" else "No services defined in prod")) &&
            (HasKey(config, "services") && Len(Index(config, "services").value).Err? ==>
               v == Error(Len(Index(config, "services").value).error))
  {
    KeyThenNonEmpty(config, "services", MissingServices(f), NoServices(f));
  }

  /** The image test on a mapping of services: it passes exactly when every service has a
      `build` key or an `image` key; a service with `build` is never asked for `image`, and
      the first service with neither is the one named. */
  lemma ImagesRule(w: Workspace, config: Value, es: seq<Entry>)
    requires w.compose.text.Some? && w.compose.decoded == Ok(config)
    requires Index(config, "services") == Ok(Dict(es))
    requires forall i :: 0 <= i < |es| ==> es[i].value.Dict?
    ensures Run(ImagesTest, w).Pass? <==>
            forall i :: 0 <= i < |es| ==> HasKey(es[i].value, "build") || HasKey(es[i].value, "image")
    ensures !Run(ImagesTest, w).Pass? ==>
            exists i :: (0 <= i < |es| && !HasKey(es[i].value, "build") && !HasKey(es[i].value, "image") &&
                         Run(ImagesTest, w) == Fail(ImageMessage(es[i].key)) &&
                         forall j :: 0 <= j < i ==> HasKey(es[j].value, "build") || HasKey(es[j].value, "image"))
  {
    OneStep(ImagesTest, w, config);
    assert Follow(config, ["services"]) == Ok(Dict(es)) by {
      assert ["services"][1..] == [];
    }
    assert StepResult(EveryServiceBuilt, config) == ServicesBuilt(es);
    assert forall i :: 0 <= i < |es| ==> (Built(es[i].value) <==> HasKey(es[i].value, "build") || HasKey(es[i].value, "image"));
    assert ServicesBuilt(es).Ok?;
  }

  /** A `get`-with-default scan over a mapping reached by `path`. */
  lemma SomeShowsRule(config: Value, path: seq<string>, x: Value, key: string, lit: string, message: string,
                      ps: seq<Value>)
    requires Follow(config, path) == Ok(x) && x.Dict?
    ensures !HasKey(x, key) ==> StepResult(SomeShows(path, key, lit, message), config) == Ok(Fail(message))
    ensures Index(x, key) == Ok(List(ps)) ==>
              (StepResult(SomeShows(path, key, lit, message), config) == Ok(Pass) <==> AnyShows(ps, lit))
  {
  }

  /** `any('8080' in str(p) for p in tikzit.get('ports', []))`: a port whose text shows
      `8080`; a service without `ports` iterates the empty default and fails. */
  lemma PortRule(w: Workspace, config: Value, tikzit: Value, ps: seq<Value>)
    requires w.compose.text.Some? && w.compose.decoded == Ok(config)
    requires Follow(config, ["services", "tikzit"]) == Ok(tikzit) && tikzit.Dict?
    ensures !HasKey(tikzit, "ports") ==> Run(PortTest, w) == Fail("tikzit service should expose port 8080 for noVNC")
    ensures Index(tikzit, "ports") == Ok(List(ps)) ==>
              (Run(PortTest, w).Pass? <==> exists i :: 0 <= i < |ps| && Contains(Display(ps[i]), "8080"))
  {
    var message := "tikzit service should expose port 8080 for noVNC";
    var step := SomeShows(["services", "tikzit"], "ports", "8080", message);
    assert Run(PortTest, w) == Settle(StepResult(step, config)) by {
      assert PortTest == Test("test_docker_compose_tikzit_exposes_port_8080", Dev, OnTree([step]));
      OneStep(PortTest, w, config);
    }
    SomeShowsRule(config, ["services", "tikzit"], tikzit, "ports", "8080", message, ps);
  }

  /** The mount test: some volume of the nginx service whose text shows `nginx.conf`; a
      service without `volumes` fails. */
  lemma MountRule(w: Workspace, config: Value, nginx: Value, vs: seq<Value>)
    requires w.composeProd.text.Some? && w.composeProd.decoded == Ok(config)
    requires Follow(config, ["services", "nginx"]) == Ok(nginx) && nginx.Dict?
    ensures !HasKey(nginx, "volumes") ==> Run(MountTest, w) == Fail("nginx service should mount nginx.conf")
    ensures Index(nginx, "volumes") == Ok(List(vs)) ==>
              (Run(MountTest, w).Pass? <==> exists i :: 0 <= i < |vs| && Contains(Display(vs[i]), "nginx.conf"))
  {
    var message := "nginx service should mount nginx.conf";
    var step := SomeShows(["services", "nginx"], "volumes", "nginx.conf", message);
    assert Run(MountTest, w) == Settle(StepResult(step, config)) by {
      assert MountTest == Test("test_docker_compose_prod_nginx_conf_mount", Prod, OnTree([step]));
      OneStep(MountTest, w, config);
    }
    SomeShowsRule(config, ["services", "nginx"], nginx, "volumes", "nginx.conf", message, vs);
  }

  /** A two-statement test body: the second runs only when the first passes. */
  lemma TwoSteps(a: Step, b: Step, config: Value)
    ensures RunSteps([a, b], config) == Then(Settle(StepResult(a, config)), Settle(StepResult(b, config)))
  {
    assert [a, b][1..] == [b];
    assert [b][1..] == [];
  }

  /** Following one more key is a subscript of what the path reaches. */
  lemma {:induction false} FollowSnoc(v: Value, path: seq<string>, k: string)
    ensures Follow(v, path + [k]) == (var x :- Follow(v, path); Index(x, k))
    decreases |path|
  {
    if path == [] {
      assert [] + [k] == [k] && [k][1..] == [];
    } else {
      assert (path + [k])[0] == path[0] && (path + [k])[1..] == path[1..] + [k];
      match Index(v, path[0])
      case Ok(x) => FollowSnoc(x, path[1..], k);
      case Err(_) =>
    }
  }

  /** `assertIn(k, config)` then `assertIsNotNone(config[k])`. */
  lemma KeyThenNotNone(config: Value, k: string, missing: string, isNone: string)
    ensures var v := RunSteps([HasMember([], k, missing), NotNone([k], isNone)], config);
            (v.Pass? <==> HasKey(config, k) && !Index(config, k).value.Null?) &&
            ((config.Null? || config.Scalar?) ==> v == Error(In(k, config).error)) &&
            (In(k, config) == Ok(false) ==> v == Fail(missing)) &&
            (In(k, config) == Ok(true) && !config.Dict? ==> v == Error(SubscriptError(config))) &&
            (HasKey(config, k) && Index(config, k).value.Null? ==> v == Fail(isNone))
  {
    TwoSteps(HasMember([], k, missing), NotNone([k], isNone), config);
    FollowSnoc(config, [], k);
    assert [] + [k] == [k];
  }

  /** `assertIn(k, config)` then `assertGreater(len(config[k]), 0)`. */
  lemma KeyThenNonEmpty(config: Value, k: string, missing: string, empty: string)
    ensures var v := RunSteps([HasMember([], k, missing), NonEmpty([k], empty)], config);
            (v.Pass? <==> HasKey(config, k) && Len(Index(config, k).value).Ok? && Len(Index(config, k).value).value > 0) &&
            ((config.Null? || config.Scalar?) ==> v == Error(In(k, config).error)) &&
            (In(k, config) == Ok(true) && !config.Dict? ==> v == Error(SubscriptError(config))) &&
            (In(k, config) == Ok(false) ==> v == Fail(missing)) &&
            (HasKey(config, k) && Len(Index(config, k).value) == Ok(0) ==> v == Fail(empty)) &&
            (HasKey(config, k) && Len(Index(config, k).value).Err? ==> v == Error(Len(Index(config, k).value).error))
  {
    TwoSteps(HasMember([], k, missing), NonEmpty([k], empty), config);
    FollowSnoc(config, [], k);
    assert [] + [k] == [k];
  }

  /** `assertIn(k, config[path])` then `assertIn(inner, config[path][k])`. */
  lemma MemberThenMember(config: Value, path: seq<string>, k: string, inner: string, m1: string, m2: string)
    ensures var v := RunSteps([HasMember(path, k, m1), HasMember(path + [k], inner, m2)], config);
            var outer, c := Follow(config, path), Follow(config, path + [k]);
            (v.Pass? <==> c.Ok? && In(inner, c.value) == Ok(true)) &&
            (outer.Err? ==> v == Error(outer.error)) &&
            (outer.Ok? && In(k, outer.value).Err? ==> v == Error(In(k, outer.value).error)) &&
            (outer.Ok? && In(k, outer.value) == Ok(false) ==> v == Fail(m1)) &&
            (outer.Ok? && In(k, outer.value) == Ok(true) ==>
               (c.Err? ==> v == Error(c.error)) &&
               (c.Ok? && In(inner, c.value).Err? ==> v == Error(In(inner, c.value).error)) &&
               (c.Ok? && In(inner, c.value) == Ok(false) ==> v == Fail(m2)))
  {
    TwoSteps(HasMember(path, k, m1), HasMember(path + [k], inner, m2), config);
    FollowSnoc(config, path, k);
  }

  /** Both `tikzit_default` and `nginx` must carry a `networks` key. A missing service
      raises KeyError, and a service whose body is empty (None) raises at `in`. */
  lemma NetworkRule(w: Workspace, config: Value)
    requires w.composeProd.text.Some? && w.composeProd.decoded == Ok(config)
    ensures var a, b := Follow(config, ["services", "tikzit_default"]), Follow(config, ["services", "nginx"]);
            Run(OnNetworkTest, w).Pass? <==>
              a.Ok? && In("networks", a.value) == Ok(true) && b.Ok? && In("networks", b.value) == Ok(true)
    ensures var a := Follow(config, ["services", "tikzit_default"]);
            (a.Err? ==> Run(OnNetworkTest, w) == Error(a.error)) &&
            (a.Ok? && In("networks", a.value).Err? ==> Run(OnNetworkTest, w) == Error(In("networks", a.value).error)) &&
            (a.Ok? && In("networks", a.value) == Ok(false) ==>
               Run(OnNetworkTest, w) == Fail("Service 'tikzit_default' must be on a network"))
    ensures var a, b := Follow(config, ["services", "tikzit_default"]), Follow(config, ["services", "nginx"]);
            a.Ok? && In("networks", a.value) == Ok(true) ==>
              (b.Err? ==> Run(OnNetworkTest, w) == Error(b.error)) &&
              (b.Ok? && In("networks", b.value).Err? ==> Run(OnNetworkTest, w) == Error(In("networks", b.value).error)) &&
              (b.Ok? && In("networks", b.value) == Ok(false) ==>
                 Run(OnNetworkTest, w) == Fail("Service 'nginx' must be on a network"))
    ensures Index(config, "services").Ok? && Index(config, "services").value.Dict? &&
            !HasKey(Index(config, "services").value, "tikzit_default") ==>
              Run(OnNetworkTest, w) == Error(KeyError("tikzit_default"))
  {
    var s1 := HasMember(["services", "tikzit_default"], "networks", "Service 'tikzit_default' must be on a network");
    var s2 := HasMember(["services", "nginx"], "networks", "Service 'nginx' must be on a network");
    assert Run(OnNetworkTest, w) == RunSteps([s1, s2], config) by {
      assert OnNetworkTest == Test("test_docker_compose_prod_services_on_network", Prod, OnTree([s1, s2]));
    }
    TwoSteps(s1, s2, config);
    FollowTwo(config, "services", "tikzit_default");
  }

  /** The service-presence tests: the service name must be a key of `services`. The
      subscript `config['services']` raises on an empty manifest (None), a scalar or a
      mapping without `services`, and `in` raises on a `services` value that is None or
      a number. */
  lemma ServiceExistsRule(w: Workspace, f: ComposeFile, name: string, service: string, config: Value)
    requires ManifestOf(w, f).text.Some? && ManifestOf(w, f).decoded == Ok(config)
    ensures var s, v := Index(config, "services"), Run(ServiceTest(f, name, service), w);
            (v.Pass? <==> s.Ok? && In(service, s.value) == Ok(true)) &&
            (s.Err? ==> v == Error(s.error)) &&
            (s.Ok? && In(service, s.value).Err? ==> v == Error(In(service, s.value).error)) &&
            (s.Ok? && In(service, s.value) == Ok(false) ==> v == Fail(FileName(f) + " must have '" + service + "' service"))
    ensures Index(config, "services").Ok? && Index(config, "services").value.Dict? ==>
              (Run(ServiceTest(f, name, service), w).Pass? <==> HasKey(Index(config, "services").value, service))
  {
    OneStep(ServiceTest(f, name, service), w, config);
    assert Follow(config, ["services"]) == Index(config, "services") by {
      assert ["services"][1..] == [];
    }
  }

  /** The environment-variable test reads the raw text, not the tree. */
  lemma EnvVariableRule(w: Workspace, content: string)
    requires w.composeProd.text == Some(content)
    ensures Run(EnvTest, w).Pass? <==> Contains(content, "${VNC_PASSWORD}")
    ensures !Run(EnvTest, w).Pass? ==> Run(EnvTest, w) == Fail("docker-compose.prod.yml should use environment variables")
  {
    var asserts := [Assertion(Has("${VNC_PASSWORD}"), "docker-compose.prod.yml should use environment variables")];
    assert EnvTest == Test("test_docker_compose_prod_env_variable_usage", Prod, OnContent(asserts));
    assert asserts[1..] == [];
  }

  /** The networks test: a top-level `networks` key whose value holds `tikzit_net`. An
      empty manifest, or an empty `networks:` (None), raises at `in`. */
  lemma NetworksDefinedRule(w: Workspace, config: Value)
    requires w.composeProd.text.Some? && w.composeProd.decoded == Ok(config)
    ensures Run(NetworksTest, w).Pass? <==>
              HasKey(config, "networks") && In("tikzit_net", Index(config, "networks").value) == Ok(true)
    ensures (config.Null? || config.Scalar?) ==> Run(NetworksTest, w) == Error(In("networks", config).error)
    ensures In("networks", config) == Ok(false) ==> Run(NetworksTest, w) == Fail("docker-compose.prod.yml should define networks")
    ensures In("networks", config) == Ok(true) && !config.Dict? ==> Run(NetworksTest, w) == Error(SubscriptError(config))
    ensures HasKey(config, "networks") ==>
              var found := In("tikzit_net", Index(config, "networks").value);
              (found.Err? ==> Run(NetworksTest, w) == Error(found.error)) &&
              (found == Ok(false) ==> Run(NetworksTest, w) == Fail("docker-compose.prod.yml must have 'tikzit_net' network"))
    ensures HasKey(config, "networks") && Index(config, "networks").value.Dict? ==>
              (Run(NetworksTest, w).Pass? <==> HasKey(Index(config, "networks").value, "tikzit_net"))
  {
    var s1 := HasMember([], "networks", "docker-compose.prod.yml should define networks");
    var s2 := HasMember(["networks"], "tikzit_net", "docker-compose.prod.yml must have 'tikzit_net' network");
    assert Run(NetworksTest, w) == RunSteps([s1, s2], config) by {
      assert NetworksTest == Test("test_docker_compose_prod_has_networks", Prod, OnTree([s1, s2]));
    }
    assert [] + ["networks"] == ["networks"];
    MemberThenMember(config, [], "networks", "tikzit_net", s1.message, s2.message);
    FollowSnoc(config, [], "networks");
  }

  /** The version-format test only asks that `str(version)` be non-empty, so a version
      that decodes to None (shown as `None`) passes it; a missing key raises KeyError, and
      the subscript of anything but a mapping (an empty manifest is None) raises TypeError. */
  lemma VersionFormatRule(w: Workspace, config: Value)
    requires w.compose.text.Some? && w.compose.decoded == Ok(config)
    ensures Run(VersionFormatTest, w).Pass? <==> HasKey(config, "version") && |Display(Index(config, "version").value)| > 0
    ensures !HasKey(config, "version") ==> Run(VersionFormatTest, w) == Error(Index(config, "version").error)
    ensures config.Dict? && !HasKey(config, "version") ==> Run(VersionFormatTest, w) == Error(KeyError("version"))
    ensures !config.Dict? ==> Run(VersionFormatTest, w) == Error(SubscriptError(config))
    ensures Index(config, "version") == Ok(Null) ==> Run(VersionFormatTest, w).Pass?
  {
    var step := ShownNonEmpty(["version"], "Version should not be empty");
    assert Run(VersionFormatTest, w) == Settle(StepResult(step, config)) by {
      assert VersionFormatTest == Test("test_docker_compose_version_format", Dev, OnTree([step]));
      OneStep(VersionFormatTest, w, config);
    }
    assert Follow(config, ["version"]) == Index(config, "version") by {
      assert ["version"][1..] == [];
    }
  }

  /** The certbot test: a `certbot` service, and a `volumes` key in it. An empty
      `certbot:` (None) raises at `in`. */
  lemma CertbotRule(w: Workspace, config: Value)
    requires w.composeProd.text.Some? && w.composeProd.decoded == Ok(config)
    ensures var c := Follow(config, ["services", "certbot"]);
            Run(CertbotTest, w).Pass? <==> c.Ok? && In("volumes", c.value) == Ok(true)
    ensures var services := Follow(config, ["services"]);
            (services.Err? ==> Run(CertbotTest, w) == Error(services.error)) &&
            (services.Ok? && In("certbot", services.value).Err? ==>
               Run(CertbotTest, w) == Error(In("certbot", services.value).error)) &&
            (services.Ok? && In("certbot", services.value) == Ok(false) ==>
               Run(CertbotTest, w) == Fail("docker-compose.prod.yml should have certbot service"))
    ensures var services, c := Follow(config, ["services"]), Follow(config, ["services", "certbot"]);
            services.Ok? && In("certbot", services.value) == Ok(true) ==>
              (c.Err? ==> Run(CertbotTest, w) == Error(c.error)) &&
              (c.Ok? && In("volumes", c.value).Err? ==> Run(CertbotTest, w) == Error(In("volumes", c.value).error)) &&
              (c.Ok? && In("volumes", c.value) == Ok(false) ==>
                 Run(CertbotTest, w) == Fail("certbot service must have volumes for SSL certs"))
    ensures var c := Follow(config, ["services", "certbot"]);
            c.Ok? && c.value.Dict? ==> (Run(CertbotTest, w).Pass? <==> HasKey(c.value, "volumes"))
  {
    var s1 := HasMember(["services"], "certbot", "docker-compose.prod.yml should have certbot service");
    var s2 := HasMember(["services", "certbot"], "volumes", "certbot service must have volumes for SSL certs");
    assert Run(CertbotTest, w) == RunSteps([s1, s2], config) by {
      assert CertbotTest == Test("test_docker_compose_prod_certbot_has_volumes", Prod, OnTree([s1, s2]));
    }
    assert ["services"] + ["certbot"] == ["services", "certbot"];
    MemberThenMember(config, ["services"], "certbot", "volumes", s1.message, s2.message);
  }
}
