/**
 * A Prometheus scrape job's configuration: the defaults, the reading of the
 * job's JSON object (durations, target, the two authentication modes, the
 * size and sample limits, the URL parameters and relabel rules) and the
 * query string built from the parameters.
 *
 * The duration parser, file reading, Base64 encoding and jsoncpp's
 * formatting of floating-point numbers are foreign code: they are fields of
 * an Environment passed to Init.
 */
module ScrapeConfig {
  import opened Wrappers
  import opened Strings
  import opened Json

  // Configuration keys and header constants. The prometheus constants header
  // is not part of this model: these are the names of Prometheus' own scrape
  // configuration and of section 2 of RFC 7617 and RFC 6750.
  const JobName: string := "job_name"
  const ScrapeInterval: string := "scrape_interval"
  const ScrapeTimeout: string := "scrape_timeout"
  const MetricsPath: string := "metrics_path"
  const Scheme: string := "scheme"
  const BasicAuth: string := "basic_auth"
  const Authorization: string := "authorization"
  const MaxScrapeSize: string := "max_scrape_size"
  const SampleLimit: string := "sample_limit"
  const SeriesLimit: string := "series_limit"
  const Params: string := "params"
  const RelabelConfigs: string := "relabel_configs"
  const Username: string := "username"
  const UsernameFile: string := "username_file"
  const Password: string := "password"
  const PasswordFile: string := "password_file"
  const Type: string := "type"
  const Credentials: string := "credentials"
  const CredentialsFile: string := "credentials_file"
  const AuthorizationHeader: string := "Authorization"
  const BasicPrefix: string := "Basic "
  const AuthorizationDefaultType: string := "Bearer"

  /** The foreign helpers Init relies on. */
  datatype Environment = Environment(
    durationToSecond: string -> int,
    readFile: string -> Option<string>,
    base64Encode: string -> string,
    formatDouble: real -> string)

  /** Init returns true or false, or an exception escapes it (from stoll, or from asString on a container). */
  datatype InitOutcome = Succeeded | Failed | Threw

  /** The members of ScrapeConfig that Init fills; relabel rules are kept as their JSON. */
  datatype Settings = Settings(
    jobName: string,
    scrapeIntervalSeconds: int,
    scrapeTimeoutSeconds: int,
    metricsPath: string,
    scheme: string,
    authHeaders: map<string, string>,
    maxScrapeSizeBytes: int,
    sampleLimit: int,
    seriesLimit: int,
    params: map<string, seq<string>>,
    relabelConfigs: seq<Value>,
    queryString: string)

  function DefaultSettings(): Settings
  {
    Settings("", 60, 10, "/metrics", "http", map[], -1, -1, -1, map[], [], "")
  }

  // ---------------------------------------------------------------------------
  // max_scrape_size
  // ---------------------------------------------------------------------------

  /** The unit letters in the order the source checks them; letter u stands for 1024^(u+1). */
  const UnitLetters: seq<char> := ['K', 'M', 'G', 'T', 'P', 'E']

  function Pow1024(e: nat): nat
  {
    if e == 0 then 1 else 1024 * Pow1024(e - 1)
  }

  /** EndWith(s, c + "iB") || EndWith(s, c) || EndWith(s, c + "B"). */
  predicate HasUnitSuffix(s: string, c: char)
  {
    || (|s| >= 3 && s[|s| - 3] == c && s[|s| - 2] == 'i' && s[|s| - 1] == 'B')
    || (|s| >= 1 && s[|s| - 1] == c)
    || (|s| >= 2 && s[|s| - 2] == c && s[|s| - 1] == 'B')
  }

  /** The number before the first occurrence of c, scaled; Err when stoll throws. */
  function ScaledNumber(s: string, c: char, scale: nat): Result<int, ()>
    requires c in s
  {
    match Stoll(s[..IndexOf(s, c)])
    case None => Err(())
    case Some(n) => Ok(n * scale)
  }

  function UnitCascade(s: string, previous: int, u: nat): Result<int, ()>
    requires u <= |UnitLetters|
    decreases |UnitLetters| - u
  {
    if u < |UnitLetters| then
      var c := UnitLetters[u];
      if HasUnitSuffix(s, c) then
        assert s[|s| - 1] == c || s[|s| - 2] == c || s[|s| - 3] == c;
        ScaledNumber(s, c, Pow1024(u + 1))
      else UnitCascade(s, previous, u + 1)
    else if |s| >= 1 && s[|s| - 1] == 'B' then
      ScaledNumber(s, 'B', 1)
    else Ok(previous)
  }

  /** The byte count a max_scrape_size string gives, when the previous value was previous. */
  function ScrapeSizeBytes(s: string, previous: int): Result<int, ()>
  {
    if s == [] then Ok(-1) else UnitCascade(s, previous, 0)
  }

  /** The three spellings of a unit: "K", "KB" and "KiB". */
  function UnitSpelling(c: char, form: nat): string
  {
    if form == 0 then [c] else if form == 1 then [c, 'B'] else [c, 'i', 'B']
  }

  /** The tests for letters before the one used fail. */
  lemma {:induction false} CascadeSkips(s: string, previous: int, from: nat, upTo: nat)
    requires from <= upTo <= |UnitLetters|
    requires forall v :: from <= v < upTo ==> !HasUnitSuffix(s, UnitLetters[v])
    ensures UnitCascade(s, previous, from) == UnitCascade(s, previous, upTo)
    decreases upTo
  {
    if from < upTo {
      CascadeSkips(s, previous, from, upTo - 1);
    }
  }

  /** A unit spelling ends the string, so no other letter passes the suffix test. */
  lemma OnlyOwnUnitSuffix(d: string, c: char, form: nat, other: char)
    requires c != 'B' && c != 'i' && other != 'B' && other != 'i' && other != c
    ensures !HasUnitSuffix(d + UnitSpelling(c, form), other)
  {
    var t := UnitSpelling(c, form);
    var s := d + t;
    assert s[|s| - 1] == t[|t| - 1];
    if form == 1 {
      assert s[|s| - 2] == c;
    } else if form >= 2 {
      assert s[|s| - 2] == 'i' && s[|s| - 3] == c;
    }
  }

  /** The first occurrence of a non-digit after a run of digits ends the run. */
  lemma IndexAfterDigits(d: string, tail: string, c: char)
    requires AllDigits(d) && !IsDigit(c) && tail != [] && tail[0] == c
    ensures c in d + tail && IndexOf(d + tail, c) == |d| && (d + tail)[..|d|] == d
  {
    var s := d + tail;
    assert s[|d|] == c;
    assert s[..|d|] == d;
    assert forall i :: 0 <= i < |d| ==> IsDigit(s[i]);
    IndexOfUnique(s, c, |d|);
  }

  /** A number followed by a unit, in any of its three spellings, is that number of 1024^(u+1) bytes. */
  lemma ScrapeSizeWithUnit(n: nat, u: nat, form: nat, previous: int)
    requires u < |UnitLetters| && form < 3 && n <= LongMax
    ensures ScrapeSizeBytes(NatToString(n) + UnitSpelling(UnitLetters[u], form), previous)
      == Ok(n * Pow1024(u + 1))
  {
    var d := NatToString(n);
    var c := UnitLetters[u];
    var t := UnitSpelling(c, form);
    var s := d + t;
    forall v | 0 <= v < u
      ensures !HasUnitSuffix(s, UnitLetters[v])
    {
      OnlyOwnUnitSuffix(d, c, form, UnitLetters[v]);
    }
    CascadeSkips(s, previous, 0, u);
    assert HasUnitSuffix(s, c) by {
      assert s[|s| - 1] == t[|t| - 1];
      if form == 1 {
        assert s[|s| - 2] == c;
      } else if form == 2 {
        assert s[|s| - 2] == 'i' && s[|s| - 3] == c;
      }
    }
    IndexAfterDigits(d, t, c);
    StollOfDecimal(n);
    assert UnitCascade(s, previous, u) == ScaledNumber(s, c, Pow1024(u + 1));
  }

  /** A number followed by "B" alone is that many bytes. */
  lemma ScrapeSizeInBytes(n: nat, previous: int)
    requires n <= LongMax
    ensures ScrapeSizeBytes(NatToString(n) + "B", previous) == Ok(n)
  {
    var d := NatToString(n);
    var s := d + "B";
    assert IsDigit(s[|s| - 2]);
    CascadeSkips(s, previous, 0, |UnitLetters|);
    assert s[..|d|] == d;
    IndexOfUnique(s, 'B', |d|);
    StollOfDecimal(n);
  }

  /** A string with no recognised unit leaves the size as it was. */
  lemma ScrapeSizeWithoutUnit(s: string, previous: int)
    requires s != [] && s[|s| - 1] !in UnitLetters && s[|s| - 1] != 'B'
    ensures ScrapeSizeBytes(s, previous) == Ok(previous)
  {
    CascadeSkips(s, previous, 0, |UnitLetters|);
  }

  /** The digits are read up to the first non-digit: "1.5MB" is one MiB. */
  lemma ScrapeSizeTruncatesFraction(previous: int)
    ensures ScrapeSizeBytes("1.5MB", previous) == Ok(1048576)
  {
    var s := "1.5MB";
    assert !HasUnitSuffix(s, 'K');
    CascadeSkips(s, previous, 0, 1);
    assert HasUnitSuffix(s, 'M');
    IndexOfUnique(s, 'M', 3);
    assert s[..3] == "1.5";
    assert SkipSpace("1.5") == "1.5";
    assert DigitPrefix(".5") == [];
    assert DigitPrefix("1.5") == "1";
    assert DecimalValue("1") == 1 by {
      assert "1"[..0] == [];
    }
    assert ParseLong("1.5") == Some(1);
    assert Pow1024(2) == 1048576;
    assert UnitCascade(s, previous, 1) == ScaledNumber(s, 'M', Pow1024(2));
  }

  // ---------------------------------------------------------------------------
  // Authentication
  // ---------------------------------------------------------------------------

  /** The member as a string when it is one, else the empty string. */
  function StringOrEmpty(v: Value, key: string): string
  {
    match StringMember(v, key)
    case Some(s) => s
    case None => ""
  }

  /** The user-pass of section 2 of RFC 7617: the user-id, a colon and the password. */
  function BasicCredentials(user: string, password: string): string
  {
    user + ":" + password
  }

  /** A user-id without a colon is recovered, with the password, by splitting at the first colon. */
  lemma BasicCredentialsSplit(user: string, password: string)
    requires ':' !in user
    ensures var t := BasicCredentials(user, password);
      ':' in t && t[..IndexOf(t, ':')] == user && t[IndexOf(t, ':') + 1..] == password
  {
    var t := BasicCredentials(user, password);
    assert t[|user|] == ':';
    assert t[..|user|] == user;
    IndexOfUnique(t, ':', |user|);
  }

  /** InitBasicAuth: the success flag and the settings after it. */
  function BasicAuthOf(s: Settings, auth: Value, env: Environment): (bool, Settings)
  {
    var username := StringOrEmpty(auth, Username);
    var usernameFile := StringOrEmpty(auth, UsernameFile);
    var password := StringOrEmpty(auth, Password);
    var passwordFile := StringOrEmpty(auth, PasswordFile);
    if (username == "" && usernameFile == "") || (password == "" && passwordFile == "") then (false, s)
    else if (username != "" && usernameFile != "") || (password != "" && passwordFile != "") then (false, s)
    else
      var user := if usernameFile != "" then env.readFile(usernameFile) else Some(username);
      if user.None? then (false, s)
      else
        var pass := if passwordFile != "" then env.readFile(passwordFile) else Some(password);
        if pass.None? then (false, s)
        else
          var header := BasicPrefix + env.base64Encode(BasicCredentials(user.value, pass.value));
          (true, s.(authHeaders := s.authHeaders[AuthorizationHeader := header]))
  }

  /**
   * Basic authentication succeeds exactly when one of username and
   * username_file, and one of password and password_file, is set and the
   * named files can be read; the header is then "Basic " and the Base64 of
   * user ":" password, and nothing else changes.
   */
  lemma BasicAuthIff(s: Settings, auth: Value, env: Environment)
    ensures var u := StringOrEmpty(auth, Username);
      var uf := StringOrEmpty(auth, UsernameFile);
      var p := StringOrEmpty(auth, Password);
      var pf := StringOrEmpty(auth, PasswordFile);
      var user := if uf != "" then env.readFile(uf) else Some(u);
      var pass := if pf != "" then env.readFile(pf) else Some(p);
      var r := BasicAuthOf(s, auth, env);
      && (r.0 <==> (u == "") != (uf == "") && (p == "") != (pf == "") && user.Some? && pass.Some?)
      && (r.0 ==> r.1 == s.(authHeaders := s.authHeaders[AuthorizationHeader :=
            BasicPrefix + env.base64Encode(BasicCredentials(user.value, pass.value))]))
      && (!r.0 ==> r.1 == s)
  {
  }

  /** InitAuthorization: the success flag and the settings after it. */
  function AuthorizationOf(s: Settings, auth: Value, env: Environment): (bool, Settings)
  {
    var givenType := StringOrEmpty(auth, Type);
    var authType := if givenType == "" then AuthorizationDefaultType else givenType;
    var credentials := StringOrEmpty(auth, Credentials);
    var credentialsFile := StringOrEmpty(auth, CredentialsFile);
    if credentials != "" && credentialsFile != "" then (false, s)
    else
      var cred := if credentialsFile != "" then env.readFile(credentialsFile) else Some(credentials);
      if cred.None? then (false, s)
      else (true, s.(authHeaders := s.authHeaders[AuthorizationHeader := authType + " " + cred.value]))
  }

  /**
   * Authorization fails exactly when both credentials and credentials_file
   * are set or the file cannot be read; otherwise the header is the type
   * (Bearer when none is given), a space and the credentials, which may be
   * empty.
   */
  lemma AuthorizationIff(s: Settings, auth: Value, env: Environment)
    ensures var t := StringOrEmpty(auth, Type);
      var c := StringOrEmpty(auth, Credentials);
      var cf := StringOrEmpty(auth, CredentialsFile);
      var cred := if cf != "" then env.readFile(cf) else Some(c);
      var r := AuthorizationOf(s, auth, env);
      && (r.0 <==> !(c != "" && cf != "") && cred.Some?)
      && (r.0 ==> r.1.authHeaders == s.authHeaders[AuthorizationHeader :=
            (if t == "" then "Bearer" else t) + " " + cred.value])
      && r.1.(authHeaders := s.authHeaders) == s
  {
  }

  // ---------------------------------------------------------------------------
  // Params, relabel rules and the query string
  // ---------------------------------------------------------------------------

  /** Json::Value::asString: None where it throws (arrays and objects). */
  function AsString(v: Value, env: Environment): Option<string>
  {
    match v
    case Null => Some("")
    case Str(s) => Some(s)
    case Bool(b) => Some(if b then "true" else "false")
    case Int(i) => Some(IntToString(i))
    case Double(d) => Some(env.formatDouble(d))
    case Array(_) => None
    case Object(_) => None
  }

  /** The values of a params entry as strings; None where asString throws. */
  function AsStrings(items: seq<Value>, env: Environment): Option<seq<string>>
  {
    if items == [] then Some([])
    else
      match AsStrings(items[..|items| - 1], env)
      case None => None
      case Some(front) =>
        match AsString(items[|items| - 1], env)
        case None => None
        case Some(last) => Some(front + [last])
  }

  /** The params entries for keys, in order: array-valued members replace the entry, others are skipped. */
  function ParamsOf(params: map<string, seq<string>>, members: map<string, Value>, keys: seq<string>, env: Environment)
    : (bool, map<string, seq<string>>)
    requires forall k :: k in keys ==> k in members
  {
    if keys == [] then (true, params)
    else
      var (ok, front) := ParamsOf(params, members, keys[..|keys| - 1], env);
      if !ok then (false, front)
      else ParamOf(front, keys[|keys| - 1], members[keys[|keys| - 1]], env)
  }

  /** One params member: an array replaces the entry for its key, anything else is skipped. */
  function ParamOf(params: map<string, seq<string>>, key: string, value: Value, env: Environment)
    : (bool, map<string, seq<string>>)
  {
    if !value.Array? then (true, params)
    else
      match AsStrings(value.items, env)
      case None => (false, params)
      case Some(values) => (true, params[key := values])
  }

  /** What iterating a JSON value visits: an array's items, an object's values in key order, nothing otherwise. */
  ghost function Elements(v: Value): seq<Value>
  {
    match v
    case Array(items) => items
    case Object(members) =>
      var keys := SortedKeys(members.Keys);
      seq(|keys|, i requires 0 <= i < |keys| => members[keys[i]])
    case _ => []
  }

  /** The "key=value" pieces of one key, in the order of its values. */
  function KeyValuePieces(key: string, values: seq<string>): seq<string>
  {
    seq(|values|, i requires 0 <= i < |values| => key + "=" + values[i])
  }

  /** The pieces of every key in keys, in order. */
  function QueryPieces(params: map<string, seq<string>>, keys: seq<string>): seq<string>
    requires forall k :: k in keys ==> k in params
  {
    if keys == [] then []
    else QueryPieces(params, keys[..|keys| - 1]) + KeyValuePieces(keys[|keys| - 1], params[keys[|keys| - 1]])
  }

  /** Appending pieces to a query string: "&" goes before a piece unless the string is still empty. */
  function AppendQuery(q: string, pieces: seq<string>): string
  {
    if pieces == [] then q
    else
      var front := AppendQuery(q, pieces[..|pieces| - 1]);
      (if front == "" then front else front + "&") + pieces[|pieces| - 1]
  }

  lemma {:induction false} AppendQueryConcat(q: string, a: seq<string>, b: seq<string>)
    ensures AppendQuery(q, a + b) == AppendQuery(AppendQuery(q, a), b)
    decreases |b|
  {
    if b == [] {
      assert a + b == a;
    } else {
      AppendQueryConcat(q, a, b[..|b| - 1]);
      assert (a + b)[..|a + b| - 1] == a + b[..|b| - 1];
    }
  }

  /**
   * Built from an empty string, the query string is its pieces joined by
   * "&": no leading or doubled separator, as long as every piece is
   * non-empty (each holds at least "=").
   */
  lemma {:induction false} AppendQueryIsJoin(pieces: seq<string>)
    requires forall i :: 0 <= i < |pieces| ==> pieces[i] != ""
    ensures AppendQuery("", pieces) == Join("&", pieces)
  {
    if |pieces| > 0 {
      var front := pieces[..|pieces| - 1];
      AppendQueryIsJoin(front);
      if |front| == 0 {
        assert AppendQuery("", front) == "";
        assert Join("&", pieces) == pieces[0];
      } else {
        assert front[0] != "";
        assert Join("&", front) != "" by { JoinStartsWithFirst(front); }
        JoinSnoc("&", front, pieces[|pieces| - 1]);
        assert front + [pieces[|pieces| - 1]] == pieces;
      }
    }
  }

  lemma JoinStartsWithFirst(parts: seq<string>)
    requires |parts| >= 1
    ensures parts[0] <= Join("&", parts)
  {
  }

  /** Every piece is "key=value" for a value of that key, and every value gives a piece. */
  lemma {:induction false} QueryPiecesMembership(params: map<string, seq<string>>, keys: seq<string>, k: string, v: string)
    requires forall key :: key in keys ==> key in params
    ensures (exists j :: 0 <= j < |keys| && keys[j] == k && v in params[k]) ==> k + "=" + v in QueryPieces(params, keys)
  {
    if keys != [] {
      var front := keys[..|keys| - 1];
      var last := keys[|keys| - 1];
      QueryPiecesMembership(params, front, k, v);
      if exists j :: 0 <= j < |keys| && keys[j] == k && v in params[k] {
        var j :| 0 <= j < |keys| && keys[j] == k && v in params[k];
        if j < |keys| - 1 {
          assert front[j] == k;
        } else {
          var i :| 0 <= i < |params[k]| && params[k][i] == v;
          assert KeyValuePieces(last, params[last])[i] == k + "=" + v;
        }
      }
    }
  }

  // ---------------------------------------------------------------------------
  // Init
  // ---------------------------------------------------------------------------

  /** The value of an int64 member: jsoncpp's isInt64 accepts integers and integral doubles in range. */
  function Int64Member(v: Value, key: string, previous: int): int
  {
    if !HasMember(v, key) then previous
    else
      match v.members[key]
      case Int(i) => if LongMin <= i <= LongMax then i else previous
      case Double(d) => if LongMin as real <= d < (LongMax + 1) as real && d == d.Floor as real then d.Floor else previous
      case _ => previous
  }

  /** scrape_interval, scrape_timeout, metrics_path and scheme, each read when it is a string. */
  function TargetOf(s: Settings, cfg: Value, env: Environment): Settings
  {
    var s1 := match StringMember(cfg, ScrapeInterval)
      case Some(d) => s.(scrapeIntervalSeconds := env.durationToSecond(d))
      case None => s;
    var s2 := match StringMember(cfg, ScrapeTimeout)
      case Some(d) => s1.(scrapeTimeoutSeconds := env.durationToSecond(d))
      case None => s1;
    var s3 := match StringMember(cfg, MetricsPath)
      case Some(p) => s2.(metricsPath := p)
      case None => s2;
    match StringMember(cfg, Scheme)
    case Some(p) => s3.(scheme := p)
    case None => s3
  }

  /** Both authentication modes and the size and sample limits; Err carries the outcome and state at the stop. */
  function AuthAndLimitsOf(s: Settings, cfg: Value, env: Environment): Result<Settings, (InitOutcome, Settings)>
    requires cfg.Object?
  {
    if HasMember(cfg, BasicAuth) && HasMember(cfg, Authorization) then Err((Failed, s))
    else
      var (ok1, s1) := if HasMember(cfg, BasicAuth) && cfg.members[BasicAuth].Object?
        then BasicAuthOf(s, cfg.members[BasicAuth], env) else (true, s);
      if !ok1 then Err((Failed, s1))
      else
        var (ok2, s2) := if HasMember(cfg, Authorization) && cfg.members[Authorization].Object?
          then AuthorizationOf(s1, cfg.members[Authorization], env) else (true, s1);
        if !ok2 then Err((Failed, s2))
        else
          var size := match StringMember(cfg, MaxScrapeSize)
            case Some(text) => ScrapeSizeBytes(text, s2.maxScrapeSizeBytes)
            case None => Ok(s2.maxScrapeSizeBytes);
          if size.Err? then Err((Threw, s2))
          else
            Ok(s2.(maxScrapeSizeBytes := size.value,
                   sampleLimit := Int64Member(cfg, SampleLimit, s2.sampleLimit),
                   seriesLimit := Int64Member(cfg, SeriesLimit, s2.seriesLimit)))
  }

  /** The params, relabel rules and query string; the outcome is Threw when asString throws. */
  ghost function ParamsAndQueryOf(s: Settings, cfg: Value, env: Environment): (InitOutcome, Settings)
    requires cfg.Object?
  {
    var (ok, params) := if HasMember(cfg, Params) && cfg.members[Params].Object?
      then
        var members := cfg.members[Params].members;
        ParamsOf(s.params, members, SortedKeys(members.Keys), env)
      else (true, s.params);
    if !ok then (Threw, s.(params := params))
    else
      var s1 := s.(params := params, relabelConfigs := s.relabelConfigs + Elements(Get(cfg, RelabelConfigs)));
      (Succeeded, s1.(queryString := AppendQuery(s1.queryString, QueryPieces(params, SortedKeys(params.Keys)))))
  }

  /** ScrapeConfig::Init from settings s: the outcome and the settings it leaves, including on the failure paths. */
  ghost function InitOf(s: Settings, cfg: Value, env: Environment): (InitOutcome, Settings)
  {
    if !(cfg.Null? || cfg.Object?) then (Threw, s)
    else if !(HasMember(cfg, JobName) && cfg.members[JobName].Str?) then (Failed, s)
    else
      var s1 := s.(jobName := cfg.members[JobName].s);
      if s1.jobName == "" then (Failed, s1)
      else
        match AuthAndLimitsOf(TargetOf(s1, cfg, env), cfg, env)
        case Err(stop) => stop
        case Ok(s2) => ParamsAndQueryOf(s2, cfg, env)
  }

  /** Init fails unless job_name is a non-empty string; on success that string is the job name. */
  lemma InitNeedsJobName(s: Settings, cfg: Value, env: Environment)
    ensures InitOf(s, cfg, env).0 == Succeeded ==>
      HasMember(cfg, JobName) && cfg.members[JobName].Str? && cfg.members[JobName].s != ""
      && InitOf(s, cfg, env).1.jobName == cfg.members[JobName].s
  {
    if (cfg.Null? || cfg.Object?) && HasMember(cfg, JobName) && cfg.members[JobName].Str? {
      var s1 := s.(jobName := cfg.members[JobName].s);
      if s1.jobName != "" {
        var t := TargetOf(s1, cfg, env);
        assert t.jobName == s1.jobName;
        AuthAndLimitsKeepJobName(t, cfg, env);
      }
    }
  }

  /** The steps after the job name never change it, and a stop is never a success. */
  lemma AuthAndLimitsKeepJobName(s: Settings, cfg: Value, env: Environment)
    requires cfg.Object?
    ensures var r := AuthAndLimitsOf(s, cfg, env);
      && (r.Err? ==> r.error.0 != Succeeded)
      && (r.Ok? ==> r.value.jobName == s.jobName && ParamsAndQueryOf(r.value, cfg, env).1.jobName == s.jobName)
  {
  }

  /** Init fails when basic_auth and authorization are both present, whatever their values. */
  lemma InitAuthModesExclusive(s: Settings, cfg: Value, env: Environment)
    requires cfg.Object? && HasMember(cfg, BasicAuth) && HasMember(cfg, Authorization)
    ensures InitOf(s, cfg, env).0 != Succeeded
  {
  }

  /** A configuration holding only a job name keeps every default. */
  lemma InitKeepsDefaults(name: string, env: Environment)
    requires name != ""
    ensures InitOf(DefaultSettings(), Object(map[JobName := Str(name)]), env)
      == (Succeeded, DefaultSettings().(jobName := name))
  {
    var cfg := Object(map[JobName := Str(name)]);
    assert !HasMember(cfg, ScrapeInterval) && !HasMember(cfg, ScrapeTimeout);
    assert !HasMember(cfg, MetricsPath) && !HasMember(cfg, Scheme);
    assert !HasMember(cfg, BasicAuth) && !HasMember(cfg, Authorization) && !HasMember(cfg, MaxScrapeSize);
    assert !HasMember(cfg, SampleLimit) && !HasMember(cfg, SeriesLimit) && !HasMember(cfg, Params);
    assert Get(cfg, RelabelConfigs) == Null;
    var s1 := DefaultSettings().(jobName := name);
    assert TargetOf(s1, cfg, env) == s1;
    assert AuthAndLimitsOf(s1, cfg, env) == Ok(s1);
    assert s1.params.Keys == {};
    assert SortedKeys({}) == [];
    assert QueryPieces(map[], []) == [];
    assert Elements(Null) == [];
    assert s1.relabelConfigs + [] == s1.relabelConfigs;
    assert AppendQuery("", []) == "";
    assert ParamsAndQueryOf(s1, cfg, env) == (Succeeded, s1);
  }

  // ---------------------------------------------------------------------------
  // The configuration object
  // ---------------------------------------------------------------------------

  class ScrapeConfigObject {
    var settings: Settings

    /** The constructor's defaults: 60 s interval, 10 s timeout, "/metrics", "http", no limits. */
    constructor ()
      ensures settings == DefaultSettings()
    {
      settings := DefaultSettings();
    }

    method InitBasicAuth(auth: Value, env: Environment) returns (ok: bool)
      modifies this
      ensures (ok, settings) == BasicAuthOf(old(settings), auth, env)
    {
      var username := StringOrEmpty(auth, Username);
      var usernameFile := StringOrEmpty(auth, UsernameFile);
      var password := StringOrEmpty(auth, Password);
      var passwordFile := StringOrEmpty(auth, PasswordFile);
      if (username == "" && usernameFile == "") || (password == "" && passwordFile == "") {
        return false;
      }
      if (username != "" && usernameFile != "") || (password != "" && passwordFile != "") {
        return false;
      }
      if usernameFile != "" {
        var content := env.readFile(usernameFile);
        if content.None? {
          return false;
        }
        username := content.value;
      }
      if passwordFile != "" {
        var content := env.readFile(passwordFile);
        if content.None? {
          return false;
        }
        password := content.value;
      }
      var token := BasicCredentials(username, password);
      settings := settings.(authHeaders := settings.authHeaders[AuthorizationHeader := BasicPrefix + env.base64Encode(token)]);
      return true;
    }

    method InitAuthorization(auth: Value, env: Environment) returns (ok: bool)
      modifies this
      ensures (ok, settings) == AuthorizationOf(old(settings), auth, env)
    {
      var authType := StringOrEmpty(auth, Type);
      if authType == "" {
        authType := AuthorizationDefaultType;
      }
      var credentials := StringOrEmpty(auth, Credentials);
      var credentialsFile := StringOrEmpty(auth, CredentialsFile);
      if credentials != "" && credentialsFile != "" {
        return false;
      }
      if credentialsFile != "" {
        var content := env.readFile(credentialsFile);
        if content.None? {
          return false;
        }
        credentials := content.value;
      }
      settings := settings.(authHeaders := settings.authHeaders[AuthorizationHeader := authType + " " + credentials]);
      return true;
    }

    /** The loop over the members of params, in key order. */
    method ReadParams(members: map<string, Value>, env: Environment) returns (ok: bool)
      modifies this
      ensures ok == ParamsOf(old(settings.params), members, SortedKeys(members.Keys), env).0
      ensures settings == old(settings).(params := ParamsOf(old(settings.params), members, SortedKeys(members.Keys), env).1)
    {
      var keys := SortedKeysOf(members.Keys);
      var params;
      ok, params := ParamsLoop(settings.params, members, keys, env);
      settings := settings.(params := params);
    }

    /** mRelabelConfigs.emplace_back for every element of the relabel_configs value. */
    method AppendRelabelConfigs(v: Value)
      modifies this
      ensures settings == old(settings).(relabelConfigs := old(settings.relabelConfigs) + Elements(v))
    {
      var elements := ElementsOf(v);
      var s0 := settings;
      var configs := s0.relabelConfigs;
      var i := 0;
      while i < |elements|
        invariant 0 <= i <= |elements|
        invariant configs == s0.relabelConfigs + elements[..i]
      {
        configs := configs + [elements[i]];
        assert elements[..i + 1] == elements[..i] + [elements[i]];
        i := i + 1;
      }
      assert elements[..i] == elements;
      settings := s0.(relabelConfigs := configs);
    }

    /** The nested loop that builds mQueryString from every params entry, in key order. */
    method BuildQueryString()
      modifies this
      ensures settings == old(settings).(queryString :=
          AppendQuery(old(settings.queryString), QueryPieces(old(settings.params), SortedKeys(old(settings.params).Keys))))
    {
      var keys := SortedKeysOf(settings.params.Keys);
      var q := QueryLoop(settings.queryString, settings.params, keys);
      settings := settings.(queryString := q);
    }

    /** ScrapeConfig::Init: fields are assigned in order and stay assigned when a later step fails. */
    method Init(cfg: Value, env: Environment) returns (outcome: InitOutcome)
      modifies this
      ensures (outcome, settings) == InitOf(old(settings), cfg, env)
    {
      if !(cfg.Null? || cfg.Object?) {
        return Threw;
      }
      var jobName := StringMember(cfg, JobName);
      if jobName.None? {
        return Failed;
      }
      settings := settings.(jobName := jobName.value);
      if jobName.value == "" {
        return Failed;
      }
      ReadTarget(cfg, env);
      outcome := ReadAuthAndLimits(cfg, env);
      if outcome != Succeeded {
        return;
      }
      outcome := ReadParamsAndQuery(cfg, env);
    }

    method ReadTarget(cfg: Value, env: Environment)
      modifies this
      ensures settings == TargetOf(old(settings), cfg, env)
    {
      var interval := StringMember(cfg, ScrapeInterval);
      if interval.Some? {
        settings := settings.(scrapeIntervalSeconds := env.durationToSecond(interval.value));
      }
      var timeout := StringMember(cfg, ScrapeTimeout);
      if timeout.Some? {
        settings := settings.(scrapeTimeoutSeconds := env.durationToSecond(timeout.value));
      }
      var path := StringMember(cfg, MetricsPath);
      if path.Some? {
        settings := settings.(metricsPath := path.value);
      }
      var scheme := StringMember(cfg, Scheme);
      if scheme.Some? {
        settings := settings.(scheme := scheme.value);
      }
    }

    method ReadAuthAndLimits(cfg: Value, env: Environment) returns (outcome: InitOutcome)
      requires cfg.Object?
      modifies this
      ensures var r := AuthAndLimitsOf(old(settings), cfg, env);
        && (r.Ok? ==> outcome == Succeeded && settings == r.value)
        && (r.Err? ==> (outcome, settings) == r.error && outcome != Succeeded)
    {
      if HasMember(cfg, BasicAuth) && HasMember(cfg, Authorization) {
        return Failed;
      }
      if HasMember(cfg, BasicAuth) && cfg.members[BasicAuth].Object? {
        var ok := InitBasicAuth(cfg.members[BasicAuth], env);
        if !ok {
          return Failed;
        }
      }
      if HasMember(cfg, Authorization) && cfg.members[Authorization].Object? {
        var ok := InitAuthorization(cfg.members[Authorization], env);
        if !ok {
          return Failed;
        }
      }
      var text := StringMember(cfg, MaxScrapeSize);
      if text.Some? {
        var size := ScrapeSizeBytes(text.value, settings.maxScrapeSizeBytes);
        if size.Err? {
          return Threw;
        }
        settings := settings.(maxScrapeSizeBytes := size.value);
      }
      settings := settings.(sampleLimit := Int64Member(cfg, SampleLimit, settings.sampleLimit));
      settings := settings.(seriesLimit := Int64Member(cfg, SeriesLimit, settings.seriesLimit));
      return Succeeded;
    }

    method ReadParamsAndQuery(cfg: Value, env: Environment) returns (outcome: InitOutcome)
      requires cfg.Object?
      modifies this
      ensures (outcome, settings) == ParamsAndQueryOf(old(settings), cfg, env)
    {
      if HasMember(cfg, Params) && cfg.members[Params].Object? {
        var ok := ReadParams(cfg.members[Params].members, env);
        if !ok {
          return Threw;
        }
      }
      AppendRelabelConfigs(Get(cfg, RelabelConfigs));
      BuildQueryString();
      return Succeeded;
    }
  }

  /** The outer loop of the query string: the pieces of each key in turn. */
  method QueryLoop(q0: string, params: map<string, seq<string>>, keys: seq<string>) returns (q: string)
    requires forall k :: k in keys ==> k in params
    ensures q == AppendQuery(q0, QueryPieces(params, keys))
  {
    q := q0;
    var i := 0;
    while i < |keys|
      invariant 0 <= i <= |keys|
      invariant q == AppendQuery(q0, QueryPieces(params, keys[..i]))
    {
      assert keys[..i + 1][..i] == keys[..i];
      AppendQueryConcat(q0, QueryPieces(params, keys[..i]), KeyValuePieces(keys[i], params[keys[i]]));
      q := AppendKeyValues(q, keys[i], params[keys[i]]);
      i := i + 1;
    }
    assert keys[..i] == keys;
  }

  /** The inner loop: one "key=value" per value, "&" before each unless the string is empty. */
  method AppendKeyValues(q0: string, key: string, values: seq<string>) returns (q: string)
    ensures q == AppendQuery(q0, KeyValuePieces(key, values))
  {
    q := q0;
    var j := 0;
    while j < |values|
      invariant 0 <= j <= |values|
      invariant q == AppendQuery(q0, KeyValuePieces(key, values[..j]))
    {
      if q != "" {
        q := q + "&";
      }
      q := q + key;
      q := q + "=";
      q := q + values[j];
      assert KeyValuePieces(key, values[..j + 1]) == KeyValuePieces(key, values[..j]) + [key + "=" + values[j]];
      j := j + 1;
    }
    assert values[..j] == values;
  }

  /** The params loop: each key in turn, stopping at the first one whose values throw. */
  method ParamsLoop(params: map<string, seq<string>>, members: map<string, Value>, keys: seq<string>, env: Environment)
    returns (ok: bool, r: map<string, seq<string>>)
    requires forall k :: k in keys ==> k in members
    ensures (ok, r) == ParamsOf(params, members, keys, env)
  {
    r := params;
    var i := 0;
    while i < |keys|
      invariant 0 <= i <= |keys|
      invariant ParamsOf(params, members, keys[..i], env) == (true, r)
    {
      assert keys[..i + 1][..i] == keys[..i];
      var next;
      ok, next := ReadParam(r, keys[i], members[keys[i]], env);
      if !ok {
        ReadParamsStop(params, members, keys, i + 1, env);
        return;
      }
      r := next;
      i := i + 1;
    }
    assert keys[..i] == keys;
    ok := true;
  }

  /** The values iterating a JSON value visits. */
  method ElementsOf(v: Value) returns (elements: seq<Value>)
    ensures elements == Elements(v)
  {
    match v {
      case Array(items) =>
        elements := items;
      case Object(members) =>
        var keys := SortedKeysOf(members.Keys);
        elements := seq(|keys|, i requires 0 <= i < |keys| => members[keys[i]]);
      case _ =>
        elements := [];
    }
  }

  /** The body of the params loop for one member. */
  method ReadParam(params: map<string, seq<string>>, key: string, value: Value, env: Environment)
    returns (ok: bool, r: map<string, seq<string>>)
    ensures (ok, r) == ParamOf(params, key, value, env)
  {
    ok, r := true, params;
    if value.Array? {
      var valueList := ValuesAsStrings(value.items, env);
      if valueList.None? {
        return false, params;
      }
      r := params[key := valueList.value];
    }
  }

  /** Converts a params array; None where asString throws. */
  method ValuesAsStrings(items: seq<Value>, env: Environment) returns (r: Option<seq<string>>)
    ensures r == AsStrings(items, env)
  {
    var values: seq<string> := [];
    var i := 0;
    while i < |items|
      invariant 0 <= i <= |items|
      invariant AsStrings(items[..i], env) == Some(values)
    {
      assert items[..i + 1][..i] == items[..i];
      var v := AsString(items[i], env);
      if v.None? {
        assert AsStrings(items[..i + 1], env).None?;
        AsStringsStop(items, i + 1, env);
        return None;
      }
      values := values + [v.value];
      i := i + 1;
    }
    assert items[..i] == items;
    return Some(values);
  }

  /** Once a prefix fails to convert, the whole list does. */
  lemma {:induction false} AsStringsStop(items: seq<Value>, n: nat, env: Environment)
    requires n <= |items| && AsStrings(items[..n], env).None?
    ensures AsStrings(items, env).None?
    decreases |items| - n
  {
    if n < |items| {
      assert items[..n + 1][..n] == items[..n];
      AsStringsStop(items, n + 1, env);
    } else {
      assert items[..n] == items;
    }
  }

  /** Once a prefix of the keys fails, the whole fold fails with the state of that prefix. */
  lemma {:induction false} ReadParamsStop(params: map<string, seq<string>>, members: map<string, Value>, keys: seq<string>, n: nat, env: Environment)
    requires forall k :: k in keys ==> k in members
    requires n <= |keys| && !ParamsOf(params, members, keys[..n], env).0
    ensures ParamsOf(params, members, keys, env) == ParamsOf(params, members, keys[..n], env)
    decreases |keys| - n
  {
    if n < |keys| {
      assert keys[..n + 1][..n] == keys[..n];
      ReadParamsStop(params, members, keys, n + 1, env);
    } else {
      assert keys[..n] == keys;
    }
  }
}
