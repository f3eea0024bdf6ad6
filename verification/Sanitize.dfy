/** docker.sanitizeServices: global hide flags, and the lists of environment
    variables and labels to mask that a service carries in its own labels. */
module Sanitize {
  import opened Text

  type Labels = map<string, string>

  /** Reference-typed members that may be nil are options. `rest` stands for all that
      the sanitizer does not look at. */
  datatype Container = Container(
    env: Option<seq<string>>, configs: Option<seq<string>>, mounts: Option<seq<string>>, secrets: Option<seq<string>>,
    labels: Option<Labels>, rest: string)

  datatype Service = Service(labels: Option<Labels>, container: Container, rest: string)

  datatype Config = Config(
    hideAllConfigs: bool, hideAllEnvs: bool, hideAllMounts: bool, hideAllSecrets: bool, hideLabels: seq<string>)

  const HIDE_ENVS := "io.github.jtgasper3.visualizer.hide-envs"
  const HIDE_LABELS := "io.github.jtgasper3.visualizer.hide-labels"
  const MASK := "(sanitized)"

  predicate HidesServiceLabels(cfg: Config) {
    "all" in cfg.hideLabels || "service" in cfg.hideLabels
  }

  predicate HidesContainerLabels(cfg: Config) {
    "all" in cfg.hideLabels || "container" in cfg.hideLabels
  }

  // ----- what is masked -----

  /** The names in a comma-separated list. */
  function Names(raw: string): set<string> {
    set item | item in Split(raw, ',') && TrimSpace(item) != "" :: TrimSpace(item)
  }

  /** The names listed under `key`, if the labels have it. */
  function Listed(labels: Option<Labels>, key: string): set<string> {
    if labels.Some? && key in labels.value then Names(labels.value[key]) else {}
  }

  /** The position of the first '=', if there is one. */
  function IndexOfEq(s: string): (r: Option<nat>)
    ensures r.Some? ==> r.value < |s| && s[r.value] == '=' && forall i | 0 <= i < r.value :: s[i] != '='
    ensures r.None? ==> '=' !in s
  {
    if s == "" then None
    else if s[0] == '=' then Some(0)
    else
      var r := IndexOfEq(s[1..]);
      if r.None? then None else Some(r.value + 1)
  }

  /** What an environment entry is known by: the text before '=', or all of it. */
  function EnvKey(env: string): string {
    var eq := IndexOfEq(env);
    if eq.Some? && eq.value > 0 then env[..eq.value] else env
  }

  function MaskEnv(masked: set<string>, env: string): string {
    if EnvKey(env) in masked then EnvKey(env) + "=" + MASK else env
  }

  function MaskEnvs(masked: set<string>, envs: seq<string>): seq<string> {
    seq(|envs|, i requires 0 <= i < |envs| => MaskEnv(masked, envs[i]))
  }

  function MaskLabels(masked: set<string>, labels: Labels): Labels {
    map k | k in labels :: if k in masked then MASK else labels[k]
  }

  function MaskOwn(labels: Option<Labels>): Option<Labels> {
    if labels.None? then None else Some(MaskLabels(Listed(labels, HIDE_LABELS), labels.value))
  }

  function Hidden(cfg: Config, svc: Service): Service {
    var c := svc.container;
    Service(
      if HidesServiceLabels(cfg) then None else svc.labels,
      Container(
        if cfg.hideAllEnvs then None else c.env,
        if cfg.hideAllConfigs then None else c.configs,
        if cfg.hideAllMounts then None else c.mounts,
        if cfg.hideAllSecrets then None else c.secrets,
        if HidesContainerLabels(cfg) then None else c.labels,
        c.rest),
      svc.rest)
  }

  /** The service as it is shown. */
  function Sanitized(cfg: Config, svc: Service): Service {
    var h := Hidden(cfg, svc);
    var envs := if h.container.env.None? then None else Some(MaskEnvs(Listed(h.labels, HIDE_ENVS), h.container.env.value));
    Service(MaskOwn(h.labels), h.container.(env := envs, labels := MaskOwn(h.container.labels)), h.rest)
  }

  // ----- the code -----

  method SanitizeServices(services: seq<Service>, cfg: Config) returns (out: seq<Service>)
    ensures |out| == |services|
    ensures forall i | 0 <= i < |services| :: out[i] == Sanitized(cfg, services[i])
  {
    out := services;
    for i := 0 to |services|
      invariant |out| == |services|
      invariant forall k | 0 <= k < i :: out[k] == Sanitized(cfg, services[k])
      invariant forall k | i <= k < |services| :: out[k] == services[k]
    {
      var svc := SanitizeService(out[i], cfg);
      out := out[i := svc];
    }
  }

  method SanitizeService(service: Service, cfg: Config) returns (svc: Service)
    ensures svc == Sanitized(cfg, service)
  {
    svc := ApplyFlags(service, cfg);
    if svc.labels.Some? {
      if HIDE_ENVS in svc.labels.value {
        var hideSet := ReadNames(svc.labels.value[HIDE_ENVS]);
        if svc.container.env.Some? {
          var envs := MaskEach(svc.container.env.value, hideSet);
          svc := svc.(container := svc.container.(env := Some(envs)));
        }
      } else if svc.container.env.Some? {
        assert MaskEnvs({}, svc.container.env.value) == svc.container.env.value;
      }
      if HIDE_LABELS in svc.labels.value {
        var labels := MaskListed(svc.labels.value, svc.labels.value[HIDE_LABELS]);
        svc := svc.(labels := Some(labels));
      } else {
        assert MaskLabels({}, svc.labels.value) == svc.labels.value;
      }
    } else if svc.container.env.Some? {
      assert MaskEnvs({}, svc.container.env.value) == svc.container.env.value;
    }
    if svc.container.labels.Some? {
      if HIDE_LABELS in svc.container.labels.value {
        var labels := MaskListed(svc.container.labels.value, svc.container.labels.value[HIDE_LABELS]);
        svc := svc.(container := svc.container.(labels := Some(labels)));
      } else {
        assert MaskLabels({}, svc.container.labels.value) == svc.container.labels.value;
      }
    }
  }

  method ApplyFlags(service: Service, cfg: Config) returns (svc: Service)
    ensures svc == Hidden(cfg, service)
  {
    svc := service;
    if cfg.hideAllConfigs {
      svc := svc.(container := svc.container.(configs := None));
    }
    if cfg.hideAllEnvs {
      svc := svc.(container := svc.container.(env := None));
    }
    if cfg.hideAllMounts {
      svc := svc.(container := svc.container.(mounts := None));
    }
    if cfg.hideAllSecrets {
      svc := svc.(container := svc.container.(secrets := None));
    }
    if "all" in cfg.hideLabels || "service" in cfg.hideLabels {
      svc := svc.(labels := None);
    }
    if "all" in cfg.hideLabels || "container" in cfg.hideLabels {
      svc := svc.(container := svc.container.(labels := None));
    }
  }

  method ReadNames(raw: string) returns (names: set<string>)
    ensures names == Names(raw)
  {
    var items := Split(raw, ',');
    names := {};
    for j := 0 to |items|
      invariant names == set item | item in items[..j] && TrimSpace(item) != "" :: TrimSpace(item)
    {
      assert items[..j + 1] == items[..j] + [items[j]];
      var item := TrimSpace(items[j]);
      if item != "" {
        names := names + {item};
      }
    }
    assert items[..|items|] == items;
  }

  method MaskEach(envs: seq<string>, masked: set<string>) returns (out: seq<string>)
    ensures out == MaskEnvs(masked, envs)
  {
    out := envs;
    for k := 0 to |envs|
      invariant |out| == |envs|
      invariant forall i | 0 <= i < k :: out[i] == MaskEnv(masked, envs[i])
      invariant forall i | k <= i < |envs| :: out[i] == envs[i]
    {
      var env := envs[k];
      var eq := IndexOfEq(env);
      if eq.Some? && eq.value > 0 {
        var key := env[..eq.value];
        if key in masked {
          out := out[k := key + "=" + MASK];
        }
      } else if env in masked {
        out := out[k := env + "=" + MASK];
      }
    }
  }

  lemma MaskOneMore(masked: set<string>, labels: Labels, name: string)
    ensures MaskLabels(masked + {name}, labels) ==
            if name in labels then MaskLabels(masked, labels)[name := MASK] else MaskLabels(masked, labels)
  {
  }

  method MaskListed(labels: Labels, raw: string) returns (out: Labels)
    ensures out == MaskLabels(Names(raw), labels)
  {
    var items := Split(raw, ',');
    out := labels;
    ghost var seen: set<string> := {};
    for j := 0 to |items|
      invariant seen == set item | item in items[..j] && TrimSpace(item) != "" :: TrimSpace(item)
      invariant out == MaskLabels(seen, labels)
    {
      assert items[..j + 1] == items[..j] + [items[j]];
      var name := TrimSpace(items[j]);
      if name == "" {
        continue;
      }
      MaskOneMore(seen, labels, name);
      seen := seen + {name};
      if name in out {
        out := out[name := MASK];
      }
    }
    assert items[..|items|] == items;
  }

  // ----- what cannot be told from the result -----

  /** Labels that agree except in the values of those they list to be hidden. */
  predicate LabelsAgree(a: Option<Labels>, b: Option<Labels>) {
    if a.None? || b.None? then a == b
    else
      && a.value.Keys == b.value.Keys
      && (HIDE_LABELS in a.value ==> a.value[HIDE_LABELS] == b.value[HIDE_LABELS])
      && forall k | k in a.value && k !in Listed(a, HIDE_LABELS) :: a.value[k] == b.value[k]
  }

  /** Entries that agree except in the values of those named in `masked`. */
  predicate EnvsAgree(masked: set<string>, a: Option<seq<string>>, b: Option<seq<string>>) {
    if a.None? || b.None? then a == b
    else
      && |a.value| == |b.value|
      && forall i | 0 <= i < |a.value| ::
           a.value[i] == b.value[i] || (EnvKey(a.value[i]) == EnvKey(b.value[i]) && EnvKey(a.value[i]) in masked)
  }

  /** Two services with the same hide lists that differ only in the values of what these
      lists name. */
  predicate SameButHidden(a: Service, b: Service) {
    && LabelsAgree(a.labels, b.labels)
    && (a.labels.Some? && HIDE_ENVS in a.labels.value ==> a.labels.value[HIDE_ENVS] == b.labels.value[HIDE_ENVS])
    && EnvsAgree(Listed(a.labels, HIDE_ENVS), a.container.env, b.container.env)
    && LabelsAgree(a.container.labels, b.container.labels)
    && a.container.(env := b.container.env, labels := b.container.labels) == b.container
    && a.rest == b.rest
  }

  lemma MaskedLabelsAgree(a: Option<Labels>, b: Option<Labels>)
    requires LabelsAgree(a, b)
    ensures MaskOwn(a) == MaskOwn(b)
  {
    if a.Some? {
      assert Listed(a, HIDE_LABELS) == Listed(b, HIDE_LABELS);
      assert MaskOwn(a).value == MaskOwn(b).value;
    }
  }

  lemma MaskedEnvsAgree(masked: set<string>, a: Option<seq<string>>, b: Option<seq<string>>)
    requires EnvsAgree(masked, a, b) && a.Some?
    ensures b.Some? && MaskEnvs(masked, a.value) == MaskEnvs(masked, b.value)
  {
  }

  lemma HiddenCannotBeTold(cfg: Config, a: Service, b: Service)
    requires SameButHidden(a, b)
    requires !HidesServiceLabels(cfg) || cfg.hideAllEnvs
    ensures Sanitized(cfg, a) == Sanitized(cfg, b)
  {
    MaskedLabelsAgree(a.labels, b.labels);
    MaskedLabelsAgree(a.container.labels, b.container.labels);
    assert Listed(a.labels, HIDE_ENVS) == Listed(b.labels, HIDE_ENVS);
    if a.container.env.Some? {
      MaskedEnvsAgree(Listed(a.labels, HIDE_ENVS), a.container.env, b.container.env);
    }
  }

  /** A service that lists the variable P, with value `value`. */
  function Sample(value: string): Service {
    Service(Some(map[HIDE_ENVS := "P"]), Container(Some(["P=" + value]), None, None, None, None, ""), "")
  }

  lemma SampleAgrees()
    ensures SameButHidden(Sample("1"), Sample("2"))
  {
    var a, b := "P=1", "P=2";
    assert IndexOfEq(a) == Some(1) && IndexOfEq(b) == Some(1);
    assert a[..1] == "P" && b[..1] == "P";
    SplitOne("P", ',');
    assert TrimSpace("P") == "P";
    assert "P" in Split("P", ',');
    assert "P" in Names("P");
    assert "P=" + "1" == a && "P=" + "2" == b;
    assert HIDE_ENVS in Sample("1").labels.value && HIDE_LABELS !in Sample("1").labels.value by {
      assert |HIDE_ENVS| != |HIDE_LABELS|;
    }
  }

  lemma SampleShows(cfg: Config)
    requires HidesServiceLabels(cfg) && !cfg.hideAllEnvs
    ensures Sanitized(cfg, Sample("1")) != Sanitized(cfg, Sample("2"))
  {
    var a, b := Sanitized(cfg, Sample("1")), Sanitized(cfg, Sample("2"));
    assert a.container.env.value[0] == MaskEnv({}, "P=" + "1") == "P=" + "1";
    assert b.container.env.value[0] == MaskEnv({}, "P=" + "2") == "P=" + "2";
    assert ("P=" + "1")[2] == '1' && ("P=" + "2")[2] == '2';
  }

  /** The hide lists are honoured exactly under configurations that do not drop the
      service labels before the list of variables is read, or drop all variables. */
  lemma ListsHonouredExactly(cfg: Config)
    ensures (forall a, b | SameButHidden(a, b) :: Sanitized(cfg, a) == Sanitized(cfg, b)) <==>
            (!HidesServiceLabels(cfg) || cfg.hideAllEnvs)
  {
    if !HidesServiceLabels(cfg) || cfg.hideAllEnvs {
      forall a, b | SameButHidden(a, b) ensures Sanitized(cfg, a) == Sanitized(cfg, b) {
        HiddenCannotBeTold(cfg, a, b);
      }
    } else {
      SampleAgrees();
      SampleShows(cfg);
    }
  }

  /** What no flag and no list names is unchanged. */
  lemma UnnamedIsKept(cfg: Config, svc: Service)
    ensures var out := Sanitized(cfg, svc);
            && out.rest == svc.rest && out.container.rest == svc.container.rest
            && (!cfg.hideAllConfigs ==> out.container.configs == svc.container.configs)
            && (!cfg.hideAllMounts ==> out.container.mounts == svc.container.mounts)
            && (!cfg.hideAllSecrets ==> out.container.secrets == svc.container.secrets)
            && (!HidesServiceLabels(cfg) ==> LabelsKept(svc.labels, out.labels))
            && (!HidesContainerLabels(cfg) ==> LabelsKept(svc.container.labels, out.container.labels))
            && (!cfg.hideAllEnvs ==> EnvsKept(Listed(svc.labels, HIDE_ENVS), svc.container.env, out.container.env))
  {
  }

  predicate LabelsKept(before: Option<Labels>, after: Option<Labels>) {
    if before.None? then after.None?
    else
      && after.Some? && after.value.Keys == before.value.Keys
      && forall k | k in before.value && k !in Listed(before, HIDE_LABELS) :: after.value[k] == before.value[k]
  }

  predicate EnvsKept(masked: set<string>, before: Option<seq<string>>, after: Option<seq<string>>) {
    if before.None? then after.None?
    else
      && after.Some? && |after.value| == |before.value|
      && forall i | 0 <= i < |before.value| && EnvKey(before.value[i]) !in masked :: after.value[i] == before.value[i]
  }

  // ----- flags and lists, spelled out -----

  /** Every flag removes its own member. */
  lemma FlagsRemove(cfg: Config, svc: Service)
    ensures var out := Sanitized(cfg, svc);
            && (cfg.hideAllConfigs ==> out.container.configs == None)
            && (cfg.hideAllEnvs ==> out.container.env == None)
            && (cfg.hideAllMounts ==> out.container.mounts == None)
            && (cfg.hideAllSecrets ==> out.container.secrets == None)
            && ("all" in cfg.hideLabels || "service" in cfg.hideLabels ==> out.labels == None)
            && ("all" in cfg.hideLabels || "container" in cfg.hideLabels ==> out.container.labels == None)
  {
  }

  /** A comma-separated list names `name`, blanks around it aside. */
  ghost predicate Mentions(raw: string, name: string) {
    exists left, right :: NamesBetween(raw, left, name, right)
  }

  predicate NamesBetween(raw: string, left: string, name: string, right: string) {
    && (forall c | c in left || c in right :: IsBlank(c))
    && left + name + right in Split(raw, ',')
  }

  /** A name of a variable or label: not empty, and showing at both ends. */
  predicate IsName(name: string) {
    name != "" && IsGraphic(name[0]) && IsGraphic(name[|name| - 1])
  }

  lemma NamedIsListed(raw: string, name: string)
    requires IsName(name) && Mentions(raw, name)
    ensures name in Names(raw)
  {
    var left, right :| NamesBetween(raw, left, name, right);
    TrimDropsBlanks(left, name, right);
    assert TrimSpace(left + name + right) == name;
  }

  lemma {:induction false} EqAt(name: string, value: string)
    requires '=' !in name
    ensures IndexOfEq(name + ("=" + value)) == Some(|name|)
  {
    var s := name + ("=" + value);
    if name != "" {
      assert s[1..] == name[1..] + ("=" + value);
      EqAt(name[1..], value);
    }
  }

  /** What a variable is known by. */
  lemma EnvKeyMeaning(name: string, value: string)
    requires '=' !in name
    ensures name != "" ==> EnvKey(name + ("=" + value)) == name
    ensures EnvKey(name) == name && EnvKey("=" + value) == "=" + value
  {
    EqAt(name, value);
    EqAt("", value);
    assert (name + ("=" + value))[..|name|] == name && "" + ("=" + value) == "=" + value;
  }

  /** A variable that the service lists shows its name and not its value, and one that is
      listed without a value gets the same mark. */
  lemma ListedVariableIsMasked(cfg: Config, svc: Service, name: string, value: string, i: nat)
    requires svc.labels.Some? && "io.github.jtgasper3.visualizer.hide-envs" in svc.labels.value
    requires IsName(name) && '=' !in name && Mentions(svc.labels.value["io.github.jtgasper3.visualizer.hide-envs"], name)
    requires svc.container.env.Some? && i < |svc.container.env.value|
    requires svc.container.env.value[i] == name + ("=" + value) || svc.container.env.value[i] == name
    requires !cfg.hideAllEnvs && "all" !in cfg.hideLabels && "service" !in cfg.hideLabels
    ensures var env := Sanitized(cfg, svc).container.env;
            env.Some? && |env.value| == |svc.container.env.value| && env.value[i] == name + "=(sanitized)"
  {
    NamedIsListed(svc.labels.value[HIDE_ENVS], name);
    EnvKeyMeaning(name, value);
    assert name in Listed(svc.labels, HIDE_ENVS);
    assert name + "=" + MASK == name + "=(sanitized)";
  }

  /** A label that the service lists is masked, and one that the container lists in the
      container. */
  lemma ListedLabelIsMasked(cfg: Config, svc: Service, name: string)
    requires IsName(name) && "all" !in cfg.hideLabels
    ensures "service" !in cfg.hideLabels && svc.labels.Some? && name in svc.labels.value &&
            "io.github.jtgasper3.visualizer.hide-labels" in svc.labels.value &&
            Mentions(svc.labels.value["io.github.jtgasper3.visualizer.hide-labels"], name) ==>
              var out := Sanitized(cfg, svc).labels; out.Some? && name in out.value && out.value[name] == "(sanitized)"
    ensures "container" !in cfg.hideLabels && svc.container.labels.Some? && name in svc.container.labels.value &&
            "io.github.jtgasper3.visualizer.hide-labels" in svc.container.labels.value &&
            Mentions(svc.container.labels.value["io.github.jtgasper3.visualizer.hide-labels"], name) ==>
              var out := Sanitized(cfg, svc).container.labels; out.Some? && name in out.value && out.value[name] == "(sanitized)"
  {
    forall raw | Mentions(raw, name) ensures name in Names(raw) {
      NamedIsListed(raw, name);
    }
  }

  /** What no list names keeps its value: a variable of another name, a label of another
      name. */
  lemma UnlistedIsKept(cfg: Config, svc: Service, name: string)
    requires forall raw: string, item: string | item in Split(raw, ',') && TrimSpace(item) == name ::
               !(svc.labels.Some? && raw in svc.labels.value.Values) && !(svc.container.labels.Some? && raw in svc.container.labels.value.Values)
    ensures !cfg.hideAllEnvs && svc.container.env.Some? && '=' !in name && name != "" ==>
              forall i, value | 0 <= i < |svc.container.env.value| && svc.container.env.value[i] == name + ("=" + value) ::
                Sanitized(cfg, svc).container.env.value[i] == svc.container.env.value[i]
    ensures "all" !in cfg.hideLabels && "service" !in cfg.hideLabels && svc.labels.Some? && name in svc.labels.value ==>
              Sanitized(cfg, svc).labels.value[name] == svc.labels.value[name]
    ensures "all" !in cfg.hideLabels && "container" !in cfg.hideLabels && svc.container.labels.Some? && name in svc.container.labels.value ==>
              Sanitized(cfg, svc).container.labels.value[name] == svc.container.labels.value[name]
  {
    assert name !in Listed(svc.labels, HIDE_ENVS) && name !in Listed(svc.labels, HIDE_LABELS);
    assert name !in Listed(svc.container.labels, HIDE_LABELS);
    forall value | '=' !in name && name != "" ensures EnvKey(name + ("=" + value)) == name {
      EnvKeyMeaning(name, value);
    }
  }
}
