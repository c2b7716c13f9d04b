/** The older configuration of src/config.py, still used by the headless monitor of the
    first release: a Dexcom account with an `ous` flag, two thresholds, two sounds and a
    repeat interval. Reading the YAML file is replaced by what it held; the environment
    is a map from variable names to values. */
module LegacyConfig {
  import opened Wrappers
  import Text

  // ---------------------------------------------------------------- validated models

  datatype Dexcom = Dexcom(username: string, password: string, ous: bool)

  datatype Alerts = Alerts(low: real, high: real, lowSound: string, highSound: string, alertInterval: int)

  datatype Monitoring = Monitoring(pollInterval: int, startupDelayMinutes: int)

  datatype AppConfig = AppConfig(dexcom: Dexcom, alerts: Alerts, monitoring: Monitoring)

  const DefaultAlerts := Alerts(3.0, 13.0, "alerts/alarm.wav", "alerts/alarm.wav", 300)
  const DefaultMonitoring := Monitoring(300, 0)

  // ---------------------------------------------------------------- the loaded document

  /** What a section of the YAML document supplies: `None` for a key that is absent. */
  datatype DexcomDoc = DexcomDoc(username: Option<string>, password: Option<string>, ous: Option<bool>)
  datatype AlertsDoc = AlertsDoc(
    low: Option<real>, high: Option<real>, lowSound: Option<string>, highSound: Option<string>,
    alertInterval: Option<int>)
  datatype MonitoringDoc = MonitoringDoc(pollInterval: Option<int>, startupDelayMinutes: Option<int>)
  datatype Document = Document(dexcom: Option<DexcomDoc>, alerts: Option<AlertsDoc>, monitoring: Option<MonitoringDoc>)

  /** `FileNotFoundError`, the `ValueError` for an empty file, and a pydantic
      `ValidationError`. */
  datatype LoadError = FileNotFound(path: string) | EmptyFile(path: string) | Invalid

  /** `AlertsConfig(**section)`: the `gt=0` bounds, then the `high_threshold` validator.
      That validator is a field validator: it runs only when `high_threshold` was
      supplied, and it compares only when `low_threshold` passed its own bound. */
  function BuildAlerts(d: AlertsDoc): (r: Result<Alerts, LoadError>)
    ensures r.Ok? ==> r.value.low > 0.0 && r.value.high > 0.0 && r.value.alertInterval > 0
    ensures r.Ok? && d.high.Some? ==> r.value.high > r.value.low
    ensures r.Ok? ==> r.value == Alerts(d.low.GetOr(3.0), d.high.GetOr(13.0),
      d.lowSound.GetOr("alerts/alarm.wav"), d.highSound.GetOr("alerts/alarm.wav"), d.alertInterval.GetOr(300))
    ensures d.high.Some? && d.low.GetOr(3.0) > 0.0 && d.high.value <= d.low.GetOr(3.0) ==> r.Err?
    ensures r.Err? <==> (!(d.low.GetOr(3.0) > 0.0 && d.high.GetOr(13.0) > 0.0 && d.alertInterval.GetOr(300) > 0)
      || (d.high.Some? && d.high.value <= d.low.GetOr(3.0)))
  {
    var a := Alerts(d.low.GetOr(3.0), d.high.GetOr(13.0),
      d.lowSound.GetOr("alerts/alarm.wav"), d.highSound.GetOr("alerts/alarm.wav"), d.alertInterval.GetOr(300));
    var boundsOk := a.low > 0.0 && a.high > 0.0 && a.alertInterval > 0;
    var validatorOk := !(d.high.Some? && a.low > 0.0 && a.high > 0.0) || a.high > a.low;
    if boundsOk && validatorOk then Ok(a) else Err(Invalid)
  }

  /** `MonitoringConfig(**section)`: `poll_interval > 0`, `startup_delay_minutes >= 0`. */
  function BuildMonitoring(d: MonitoringDoc): (r: Result<Monitoring, LoadError>)
    ensures r.Ok? <==> d.pollInterval.GetOr(300) > 0 && d.startupDelayMinutes.GetOr(0) >= 0
    ensures r.Ok? ==> r.value == Monitoring(d.pollInterval.GetOr(300), d.startupDelayMinutes.GetOr(0))
  {
    var m := Monitoring(d.pollInterval.GetOr(300), d.startupDelayMinutes.GetOr(0));
    if m.pollInterval > 0 && m.startupDelayMinutes >= 0 then Ok(m) else Err(Invalid)
  }

  /** `DexcomConfig(**section)`: username and password are required, `ous` defaults to
      false. */
  function BuildDexcom(d: DexcomDoc): (r: Result<Dexcom, LoadError>)
    ensures r.Ok? <==> d.username.Some? && d.password.Some?
    ensures r.Ok? ==> r.value == Dexcom(d.username.value, d.password.value, d.ous.GetOr(false))
  {
    if d.username.Some? && d.password.Some? then Ok(Dexcom(d.username.value, d.password.value, d.ous.GetOr(false)))
    else Err(Invalid)
  }

  /** `Config(**data)`: the `dexcom` section is required; the other two default to the
      models built from nothing. */
  function BuildConfig(doc: Document): (r: Result<AppConfig, LoadError>)
    ensures doc.dexcom.None? ==> r == Err(Invalid)
    ensures r.Ok? ==> doc.dexcom.Some? && BuildDexcom(doc.dexcom.value) == Ok(r.value.dexcom)
    ensures r.Ok? && doc.alerts.Some? ==> BuildAlerts(doc.alerts.value) == Ok(r.value.alerts)
    ensures r.Ok? && doc.alerts.None? ==> r.value.alerts == DefaultAlerts
    ensures r.Ok? && doc.monitoring.Some? ==> BuildMonitoring(doc.monitoring.value) == Ok(r.value.monitoring)
    ensures r.Ok? && doc.monitoring.None? ==> r.value.monitoring == DefaultMonitoring
    ensures r.Ok? <==> (doc.dexcom.Some? && BuildDexcom(doc.dexcom.value).Ok?
      && (doc.alerts.None? || BuildAlerts(doc.alerts.value).Ok?)
      && (doc.monitoring.None? || BuildMonitoring(doc.monitoring.value).Ok?))
  {
    if doc.dexcom.None? then Err(Invalid)
    else
      var dx := BuildDexcom(doc.dexcom.value);
      var al := if doc.alerts.Some? then BuildAlerts(doc.alerts.value) else Ok(DefaultAlerts);
      var mo := if doc.monitoring.Some? then BuildMonitoring(doc.monitoring.value) else Ok(DefaultMonitoring);
      if dx.Ok? && al.Ok? && mo.Ok? then Ok(AppConfig(dx.value, al.value, mo.value)) else Err(Invalid)
  }

  /** `load_config`: the path defaults to "config.yaml"; a missing file, then an empty
      one (`yaml.safe_load` gives `None`), then validation. */
  function LoadConfig(path: Option<string>, fileExists: bool, content: Option<Document>): (r: Result<AppConfig, LoadError>)
    ensures !fileExists ==> r == Err(FileNotFound(path.GetOr("config.yaml")))
    ensures fileExists && content.None? ==> r == Err(EmptyFile(path.GetOr("config.yaml")))
    ensures fileExists && content.Some? ==> r == BuildConfig(content.value)
  {
    var p := path.GetOr("config.yaml");
    if !fileExists then Err(FileNotFound(p))
    else if content.None? then Err(EmptyFile(p))
    else BuildConfig(content.value)
  }

  /** Both default sections pass their own validation whether or not their values are
      written out. */
  lemma DefaultsAccepted()
    ensures BuildAlerts(AlertsDoc(None, None, None, None, None)) == Ok(DefaultAlerts)
    ensures BuildAlerts(AlertsDoc(Some(3.0), Some(13.0), None, None, Some(300))) == Ok(DefaultAlerts)
    ensures BuildMonitoring(MonitoringDoc(None, None)) == Ok(DefaultMonitoring)
  {
  }

  /** Because the validator never sees the default high threshold, a low threshold above
      it is accepted on its own, and the loaded thresholds are inverted. */
  lemma InvertedThresholdsAccepted()
    ensures BuildAlerts(AlertsDoc(Some(15.0), None, None, None, None)).Ok?
    ensures BuildAlerts(AlertsDoc(Some(15.0), None, None, None, None)).value.high
      < BuildAlerts(AlertsDoc(Some(15.0), None, None, None, None)).value.low
    ensures BuildAlerts(AlertsDoc(Some(15.0), Some(13.0), None, None, None)).Err?
  {
  }

  /** `MonitoringConfig.startup_delay`, in seconds. */
  function StartupDelay(m: Monitoring): (seconds: int)
    ensures seconds == 60 * m.startupDelayMinutes
    ensures m.startupDelayMinutes >= 0 ==> seconds >= 0
  {
    m.startupDelayMinutes * 60
  }

  // ---------------------------------------------------------------- environment

  /** `os.getenv(name)` is truthy: the variable is set and not empty. */
  predicate IsSet(env: map<string, string>, name: string) {
    name in env && env[name] != ""
  }

  /** `load_config_with_env_override` after loading: each non-empty variable replaces its
      field; `ous` is true exactly when the variable's lower-cased value is "true". The
      assignments are not validated again. */
  function ApplyEnv(c: AppConfig, env: map<string, string>): (r: AppConfig)
    ensures r.alerts == c.alerts && r.monitoring == c.monitoring
    ensures r.dexcom.username == (if IsSet(env, "DEXCOM_USERNAME") then env["DEXCOM_USERNAME"] else c.dexcom.username)
    ensures r.dexcom.password == (if IsSet(env, "DEXCOM_PASSWORD") then env["DEXCOM_PASSWORD"] else c.dexcom.password)
    ensures IsSet(env, "DEXCOM_OUS") ==> (r.dexcom.ous <==> Text.Lower(env["DEXCOM_OUS"]) == "true")
    ensures !IsSet(env, "DEXCOM_OUS") ==> r.dexcom.ous == c.dexcom.ous
  {
    var d := c.dexcom;
    var d1 := if IsSet(env, "DEXCOM_USERNAME") then d.(username := env["DEXCOM_USERNAME"]) else d;
    var d2 := if IsSet(env, "DEXCOM_PASSWORD") then d1.(password := env["DEXCOM_PASSWORD"]) else d1;
    var d3 := if IsSet(env, "DEXCOM_OUS") then d2.(ous := Text.Lower(env["DEXCOM_OUS"]) == "true") else d2;
    c.(dexcom := d3)
  }

  /** `load_config_with_env_override`. */
  function LoadWithEnvOverride(path: Option<string>, fileExists: bool, content: Option<Document>, env: map<string, string>)
    : (r: Result<AppConfig, LoadError>)
    ensures r.Err? <==> LoadConfig(path, fileExists, content).Err?
    ensures r.Err? ==> r == LoadConfig(path, fileExists, content)
    ensures r.Ok? ==> r.value == ApplyEnv(LoadConfig(path, fileExists, content).value, env)
  {
    match LoadConfig(path, fileExists, content)
    case Err(e) => Err(e)
    case Ok(c) => Ok(ApplyEnv(c, env))
  }

  /** Overriding twice from the same environment is overriding once, and an environment
      without the three variables (or with them empty) changes nothing. */
  lemma EnvOverrideProperties(c: AppConfig, env: map<string, string>)
    ensures ApplyEnv(ApplyEnv(c, env), env) == ApplyEnv(c, env)
    ensures !IsSet(env, "DEXCOM_USERNAME") && !IsSet(env, "DEXCOM_PASSWORD") && !IsSet(env, "DEXCOM_OUS") ==>
      ApplyEnv(c, env) == c
  {
  }

  /** Any spelling of "true" sets `ous`; "1" or "yes" clears it. */
  lemma OusSpellings(c: AppConfig)
    ensures ApplyEnv(c, map["DEXCOM_OUS" := "TRUE"]).dexcom.ous
    ensures ApplyEnv(c, map["DEXCOM_OUS" := "True"]).dexcom.ous
    ensures !ApplyEnv(c, map["DEXCOM_OUS" := "1"]).dexcom.ous
    ensures !ApplyEnv(c, map["DEXCOM_OUS" := "yes"]).dexcom.ous
  {
    assert Text.Lower("TRUE") == "true";
    assert Text.Lower("True") == "true";
    assert |Text.Lower("1")| != |"true"|;
    assert Text.Lower("yes") != "true" by { assert |Text.Lower("yes")| == 3; }
  }
}
