/** Authentication headers and TLS settings of the Cortex exporter
    (exporters/metric/cortex/auth.go). The exporter keeps its configuration in a field
    whose header map the authentication methods fill in, so that a file is read at most
    once. Files are given as a map from path to contents; a path that is not in the map,
    and the empty path, cannot be read. */
module Auth {
  import opened Wrappers
  import opened GoStrings
  import Base64

  /** The three error values of auth.go. */
  datatype AuthError = NoBasicAuthUsername | NoBasicAuthPassword | FailedToReadFile

  /** The text of each error value. */
  function Message(e: AuthError): (m: string)
    ensures m != []
  {
    match e
    case NoBasicAuthUsername => "No username provided for basic authentication"
    case NoBasicAuthPassword => "No password or password file provided for basic authentication"
    case FailedToReadFile => "Failed to read password / bearer token file"
  }

  /** The parts of the exporter's `Config` that this file reads or writes. `None` is a
      nil map. */
  datatype Config = Config(
    headers: Option<map<string, string>>,
    basicAuth: Option<map<string, string>>,
    bearerToken: string,
    bearerTokenFile: string,
    tlsConfig: Option<map<string, string>>)

  /** Readable files and their contents. */
  type Files = map<string, string>

  /** `ioutil.ReadFile`: the contents, or `None` when the file cannot be read. */
  function ReadFile(files: Files, path: string): (r: Option<string>)
    ensures r.Some? <==> path != "" && path in files
    ensures r.Some? ==> r.value == files[path]
  {
    if path != "" && path in files then Some(files[path]) else None
  }

  /** The configuration already holds an Authorization header. */
  predicate HasAuthHeader(config: Config)
  {
    config.headers.Some? && "Authorization" in config.headers.value
  }

  /** `storeAuthHeader` on a configuration: the header map, created when nil, with its
      Authorization entry set to `value`; nothing else changes. */
  function WithAuthHeader(config: Config, value: string): (c: Config)
    ensures HasAuthHeader(c) && c.headers.value["Authorization"] == value
    ensures c.headers.value.Keys == (if config.headers.Some? then config.headers.value.Keys else {}) + {"Authorization"}
    ensures forall k :: k in c.headers.value && k != "Authorization" ==>
      config.headers.Some? && c.headers.value[k] == config.headers.value[k]
    ensures c.basicAuth == config.basicAuth && c.bearerToken == config.bearerToken
      && c.bearerTokenFile == config.bearerTokenFile && c.tlsConfig == config.tlsConfig
  {
    var headers := if config.headers.Some? then config.headers.value else map[];
    config.(headers := Some(headers["Authorization" := value]))
  }

  /** The value `SetBasicAuth` gives the Authorization header. */
  function BasicAuthValue(username: string, password: string): (v: string)
    ensures |v| >= 6 && v[..6] == "Basic "
  {
    "Basic " + Base64.Encode(Bytes(username + ":" + password))
  }

  /** The header carries the credentials: its text after "Basic " decodes to the UTF-8
      bytes of "username:password". */
  lemma BasicAuthValueDecodes(username: string, password: string)
    ensures Base64.Decode(BasicAuthValue(username, password)[6..]) == Some(Bytes(username + ":" + password))
  {
    var encoded := Base64.Encode(Bytes(username + ":" + password));
    assert BasicAuthValue(username, password)[6..] == encoded;
    Base64.DecodeEncode(Bytes(username + ":" + password));
  }

  /** What `addBasicAuth` does: `Success(None)` when it sets nothing, `Success(Some(v))`
      when it sets and stores the header `v`, `Failure(e)` when it returns `e`. */
  function BasicAuthOutcome(config: Config, files: Files): (r: Result<Option<string>, AuthError>)
    ensures r.Failure? || r.value.Some? ==> !HasAuthHeader(config) && config.basicAuth.Some?
    ensures r.Success? && r.value.Some? ==>
      Lookup(config.basicAuth.value, "username") != "" && "Basic " <= r.value.value
  {
    if HasAuthHeader(config) || config.basicAuth.None? then Success(None)
    else
      var username := Lookup(config.basicAuth.value, "username");
      if username == "" then Failure(NoBasicAuthUsername)
      else
        var passwordFile := Lookup(config.basicAuth.value, "password_file");
        if passwordFile != "" then
          match ReadFile(files, passwordFile)
          case None => Failure(FailedToReadFile)
          case Some(password) => Success(Some(BasicAuthValue(username, password)))
        else
          var password := Lookup(config.basicAuth.value, "password");
          if password == "" then Failure(NoBasicAuthPassword)
          else Success(Some(BasicAuthValue(username, password)))
  }

  /** What `addBearerTokenAuth` does, in the same terms. */
  function BearerTokenOutcome(config: Config, files: Files): (r: Result<Option<string>, AuthError>)
    ensures r.Failure? ==> r.error == FailedToReadFile && config.bearerTokenFile != ""
    ensures r.Success? && r.value.Some? ==>
      && !HasAuthHeader(config) && "Bearer " <= r.value.value
      && (config.bearerTokenFile == "" ==> r.value.value == "Bearer " + config.bearerToken)
  {
    if HasAuthHeader(config) then Success(None)
    else if config.bearerTokenFile != "" then
      match ReadFile(files, config.bearerTokenFile)
      case None => Failure(FailedToReadFile)
      case Some(token) => Success(Some("Bearer " + token))
    else if config.bearerToken != "" then Success(Some("Bearer " + config.bearerToken))
    else Success(None)
  }

  // ---------------------------------------------------------------------------
  // Properties of the two outcomes

  /** Basic authentication sets nothing exactly when a header is already stored or no
      basic authentication is configured. */
  lemma BasicAuthSkipped(config: Config, files: Files)
    ensures BasicAuthOutcome(config, files) == Success(None) <==>
      HasAuthHeader(config) || config.basicAuth.None?
  {
  }

  /** A missing or empty username fails before any file is read: the outcome is the same
      whatever files exist. */
  lemma UsernameCheckedFirst(config: Config, files: Files, otherFiles: Files)
    requires !HasAuthHeader(config) && config.basicAuth.Some?
    requires Lookup(config.basicAuth.value, "username") == ""
    ensures BasicAuthOutcome(config, files) == BasicAuthOutcome(config, otherFiles) == Failure(NoBasicAuthUsername)
  {
  }

  /** A password file beats the password: the password entry is not consulted, and an
      unreadable file fails. */
  lemma PasswordFileFirst(config: Config, files: Files, password: string)
    requires !HasAuthHeader(config) && config.basicAuth.Some?
    requires Lookup(config.basicAuth.value, "username") != ""
    requires Lookup(config.basicAuth.value, "password_file") != ""
    ensures var auth := config.basicAuth.value;
      BasicAuthOutcome(config, files)
      == BasicAuthOutcome(config.(basicAuth := Some(auth["password" := password])), files)
    ensures var auth := config.basicAuth.value;
      BasicAuthOutcome(config, files) ==
        match ReadFile(files, Lookup(auth, "password_file"))
        case None => Failure(FailedToReadFile)
        case Some(contents) => Success(Some(BasicAuthValue(Lookup(auth, "username"), contents)))
  {
    var auth := config.basicAuth.value;
    var auth' := auth["password" := password];
    assert Lookup(auth', "username") == Lookup(auth, "username");
    assert Lookup(auth', "password_file") == Lookup(auth, "password_file");
  }

  /** Without a password file, an empty password fails. */
  lemma PasswordRequired(config: Config, files: Files)
    requires !HasAuthHeader(config) && config.basicAuth.Some?
    requires Lookup(config.basicAuth.value, "username") != ""
    requires Lookup(config.basicAuth.value, "password_file") == ""
    requires Lookup(config.basicAuth.value, "password") == ""
    ensures BasicAuthOutcome(config, files) == Failure(NoBasicAuthPassword)
  {
  }

  /** Without a password file, a non-empty password entry is the password sent: the
      header decodes to the username, a colon and that entry. */
  lemma PasswordEntryUsed(config: Config, files: Files)
    requires !HasAuthHeader(config) && config.basicAuth.Some?
    requires Lookup(config.basicAuth.value, "username") != ""
    requires Lookup(config.basicAuth.value, "password_file") == ""
    requires Lookup(config.basicAuth.value, "password") != ""
    ensures var auth := config.basicAuth.value;
      var username, password := Lookup(auth, "username"), Lookup(auth, "password");
      && BasicAuthOutcome(config, files) == Success(Some(BasicAuthValue(username, password)))
      && Base64.Decode(BasicAuthOutcome(config, files).value.value[6..])
         == Some(Bytes(username + ":" + password))
  {
    var auth := config.basicAuth.value;
    BasicAuthValueDecodes(Lookup(auth, "username"), Lookup(auth, "password"));
  }

  /** A header set by basic authentication decodes to the username, a colon and the
      password: the file's contents when a password file is named, the entry otherwise. */
  lemma BasicAuthCarriesCredentials(config: Config, files: Files)
    requires BasicAuthOutcome(config, files).Success? && BasicAuthOutcome(config, files).value.Some?
    ensures var auth := config.basicAuth.value;
      var password :=
        if Lookup(auth, "password_file") != "" then ReadFile(files, Lookup(auth, "password_file")).value
        else Lookup(auth, "password");
      var v := BasicAuthOutcome(config, files).value.value;
      && v == BasicAuthValue(Lookup(auth, "username"), password)
      && Base64.Decode(v[6..]) == Some(Bytes(Lookup(auth, "username") + ":" + password))
  {
    var auth := config.basicAuth.value;
    var username := Lookup(auth, "username");
    var password :=
      if Lookup(auth, "password_file") != "" then ReadFile(files, Lookup(auth, "password_file")).value
      else Lookup(auth, "password");
    BasicAuthValueDecodes(username, password);
  }

  /** The bearer token sets nothing exactly when a header is already stored or neither
      a token file nor a token is configured. */
  lemma BearerTokenSkipped(config: Config, files: Files)
    ensures BearerTokenOutcome(config, files) == Success(None) <==>
      HasAuthHeader(config) || (config.bearerTokenFile == "" && config.bearerToken == "")
  {
  }

  /** The token file beats the token; an unreadable token file fails. */
  lemma BearerTokenFileFirst(config: Config, files: Files, token: string)
    requires !HasAuthHeader(config) && config.bearerTokenFile != ""
    ensures BearerTokenOutcome(config, files) == BearerTokenOutcome(config.(bearerToken := token), files)
    ensures BearerTokenOutcome(config, files) ==
      match ReadFile(files, config.bearerTokenFile)
      case None => Failure(FailedToReadFile)
      case Some(contents) => Success(Some("Bearer " + contents))
  {
  }

  /** Once either method has stored its header, both methods set nothing: no file is
      read again. */
  lemma StoredHeaderIsFinal(config: Config, files: Files, value: string, laterFiles: Files)
    ensures BasicAuthOutcome(WithAuthHeader(config, value), laterFiles) == Success(None)
    ensures BearerTokenOutcome(WithAuthHeader(config, value), laterFiles) == Success(None)
  {
  }

  /** Neither method fails once a header is stored, and neither fails when nothing is
      configured. */
  lemma NothingToDo(config: Config, files: Files)
    requires config.basicAuth.None? && config.bearerTokenFile == "" && config.bearerToken == ""
    ensures BasicAuthOutcome(config, files) == Success(None)
    ensures BearerTokenOutcome(config, files) == Success(None)
  {
  }

  // ---------------------------------------------------------------------------
  // TLS settings (buildTLSConfig)

  /** The fields of `tls.Config` that `buildTLSConfig` sets: the CA file and the client
      certificate are kept as the contents of the files they come from. */
  datatype TlsSettings = TlsSettings(
    serverName: string,
    insecureSkipVerify: bool,
    rootCAs: Option<string>,
    certificates: seq<(string, string)>)

  /** The error of an unreadable CA file or client key pair. */
  datatype TlsError = CaFileUnreadable(caFile: string) | KeyPairUnreadable(certFile: string, keyFile: string)

  /** The default `tls.Config{}`. */
  const DefaultTls := TlsSettings("", false, None, [])

  /** The server name and the flag: the name when one is given, and the flag set
      exactly when the entry reads "1". */
  function TlsFlags(m: map<string, string>): (t: TlsSettings)
    ensures t.serverName == Lookup(m, "server_name")
    ensures t.insecureSkipVerify <==> Lookup(m, "insecure_skip_verify") == "1"
    ensures t.rootCAs.None? && t.certificates == []
  {
    var serverName := if Lookup(m, "server_name") != "" then Lookup(m, "server_name") else "";
    DefaultTls.(serverName := serverName, insecureSkipVerify := Lookup(m, "insecure_skip_verify") == "1")
  }

  /** The TLS map as the loaders read it: a nil map reads as empty. */
  function TlsMap(config: Config): (m: map<string, string>)
    ensures config.tlsConfig.Some? ==> m == config.tlsConfig.value
    ensures config.tlsConfig.None? ==> m == map[]
  {
    if config.tlsConfig.Some? then config.tlsConfig.value else map[]
  }

  /** The CA file's contents become the root pool when a CA file is named. */
  function WithCaFile(t: TlsSettings, m: map<string, string>, files: Files): Result<TlsSettings, TlsError>
  {
    var caFile := Lookup(m, "ca_file");
    if caFile == "" then Success(t)
    else
      match ReadFile(files, caFile)
      case None => Failure(CaFileUnreadable(caFile))
      case Some(pem) => Success(t.(rootCAs := Some(pem)))
  }

  /** `tls.LoadX509KeyPair` on the two named files: both must be readable. */
  function WithKeyPair(t: TlsSettings, m: map<string, string>, files: Files): Result<TlsSettings, TlsError>
  {
    var certFile, keyFile := Lookup(m, "cert_file"), Lookup(m, "key_file");
    match (ReadFile(files, certFile), ReadFile(files, keyFile))
    case (Some(cert), Some(key)) => Success(t.(certificates := [(cert, key)]))
    case _ => Failure(KeyPairUnreadable(certFile, keyFile))
  }

  /** `buildTLSConfig` as written: the key pair is loaded even when no client certificate
      is named, so every TLS configuration that builds holds exactly one certificate. */
  function TlsSettingsAsWritten(config: Config, files: Files): (r: Result<TlsSettings, TlsError>)
    ensures config.tlsConfig.None? ==> r == Success(DefaultTls)
    ensures config.tlsConfig.Some? && r.Success? ==>
      var m := config.tlsConfig.value;
      && r.value.serverName == Lookup(m, "server_name")
      && (r.value.insecureSkipVerify <==> Lookup(m, "insecure_skip_verify") == "1")
      && var cert, key := ReadFile(files, Lookup(m, "cert_file")), ReadFile(files, Lookup(m, "key_file"));
        cert.Some? && key.Some? && r.value.certificates == [(cert.value, key.value)]
  {
    if config.tlsConfig.None? then Success(DefaultTls)
    else
      var m := config.tlsConfig.value;
      var t :- WithCaFile(TlsFlags(m), m, files);
      WithKeyPair(t, m, files)
  }

  /** As written, a TLS configuration that names no client certificate never builds,
      even one that only asks to skip verification. */
  lemma TlsWithoutClientCertFails(config: Config, files: Files)
    requires config.tlsConfig.Some?
    requires Lookup(config.tlsConfig.value, "cert_file") == "" && Lookup(config.tlsConfig.value, "key_file") == ""
    ensures TlsSettingsAsWritten(config, files) == Failure(
      if Lookup(config.tlsConfig.value, "ca_file") != "" && ReadFile(files, Lookup(config.tlsConfig.value, "ca_file")).None?
      then CaFileUnreadable(Lookup(config.tlsConfig.value, "ca_file"))
      else KeyPairUnreadable("", ""))
  {
  }

  /** `buildTLSConfig` as intended: the client certificate is loaded only when a
      certificate or key file is named ("if it exists"). */
  function TlsSettingsFor(config: Config, files: Files): Result<TlsSettings, TlsError>
  {
    if config.tlsConfig.None? then Success(DefaultTls)
    else
      var m := config.tlsConfig.value;
      var t :- WithCaFile(TlsFlags(m), m, files);
      if Lookup(m, "cert_file") == "" && Lookup(m, "key_file") == "" then Success(t)
      else WithKeyPair(t, m, files)
  }

  /** The intended settings: a nil TLS map gives the defaults; otherwise the server name
      and the skip-verification flag follow the map, the flag being set exactly by "1";
      without a CA file or client certificate the build cannot fail; and a client
      certificate that is named is loaded as written. */
  lemma TlsSettingsProperties(config: Config, files: Files)
    ensures config.tlsConfig.None? ==> TlsSettingsFor(config, files) == Success(DefaultTls)
    ensures TlsSettingsFor(config, files).Success? && config.tlsConfig.Some? ==>
      var m, t := config.tlsConfig.value, TlsSettingsFor(config, files).value;
      && t.serverName == Lookup(m, "server_name")
      && (t.insecureSkipVerify <==> Lookup(m, "insecure_skip_verify") == "1")
    ensures config.tlsConfig.Some? && Lookup(config.tlsConfig.value, "ca_file") == ""
      && Lookup(config.tlsConfig.value, "cert_file") == "" && Lookup(config.tlsConfig.value, "key_file") == ""
      ==> TlsSettingsFor(config, files) == Success(TlsFlags(config.tlsConfig.value))
    ensures config.tlsConfig.Some?
      && (Lookup(config.tlsConfig.value, "cert_file") != "" || Lookup(config.tlsConfig.value, "key_file") != "")
      ==> TlsSettingsFor(config, files) == TlsSettingsAsWritten(config, files)
  {
  }

  // ---------------------------------------------------------------------------
  // The request, the TLS configuration and the exporter

  /** An HTTP request; only its header is modelled, one value per key. */
  class Request {
    var header: map<string, string>

    constructor(header: map<string, string>)
      ensures this.header == header
    {
      this.header := header;
    }

    /** `Header.Get`: "" when the key is absent. */
    function Get(key: string): (v: string)
      reads this
      ensures key in header ==> v == header[key]
      ensures key !in header ==> v == ""
    {
      Lookup(header, key)
    }

    /** `Header.Set`: the key's value replaced. */
    method Set(key: string, value: string)
      modifies this
      ensures header == old(header)[key := value]
    {
      header := header[key := value];
    }

    /** `SetBasicAuth`: the Authorization header set to the encoded credentials. */
    method SetBasicAuth(username: string, password: string)
      modifies this
      ensures header == old(header)["Authorization" := BasicAuthValue(username, password)]
    {
      header := header["Authorization" := BasicAuthValue(username, password)];
    }
  }

  /** A `tls.Config` under construction. */
  class TlsConfig {
    var serverName: string
    var insecureSkipVerify: bool
    var rootCAs: Option<string>
    var certificates: seq<(string, string)>

    /** `&tls.Config{}`. */
    constructor()
      ensures Settings() == DefaultTls
    {
      serverName, insecureSkipVerify, rootCAs, certificates := "", false, None, [];
    }

    function Settings(): TlsSettings
      reads this
    {
      TlsSettings(serverName, insecureSkipVerify, rootCAs, certificates)
    }
  }

  class Exporter {
    var config: Config

    constructor(config: Config)
      ensures this.config == config
    {
      this.config := config;
    }

    /** `storeAuthHeader`. */
    method StoreAuthHeader(value: string)
      modifies this
      ensures config == WithAuthHeader(old(config), value)
    {
      if config.headers.None? {
        config := config.(headers := Some(map[]));
      }
      config := config.(headers := Some(config.headers.value["Authorization" := value]));
    }

    /** `addBasicAuth`: on success the request and the configuration both get the
        header; on failure or when there is nothing to do neither changes. */
    method AddBasicAuth(req: Request, files: Files) returns (err: Option<AuthError>)
      modifies this, req
      ensures var outcome := BasicAuthOutcome(old(config), files);
        && (outcome.Failure? ==> err == Some(outcome.error))
        && (outcome.Success? ==> err.None?)
        && (outcome.Success? && outcome.value.Some? ==>
              req.header == old(req.header)["Authorization" := outcome.value.value]
              && config == WithAuthHeader(old(config), outcome.value.value))
        && (outcome.Failure? || outcome.value.None? ==>
              req.header == old(req.header) && config == old(config))
    {
      if HasAuthHeader(config) {
        return None;
      }
      if config.basicAuth.None? {
        return None;
      }
      var username := Lookup(config.basicAuth.value, "username");
      if username == "" {
        return Some(NoBasicAuthUsername);
      }
      var passwordFile := Lookup(config.basicAuth.value, "password_file");
      if passwordFile != "" {
        var contents := ReadFile(files, passwordFile);
        if contents.None? {
          return Some(FailedToReadFile);
        }
        req.SetBasicAuth(username, contents.value);
        StoreAuthHeader(req.Get("Authorization"));
        return None;
      }
      var password := Lookup(config.basicAuth.value, "password");
      if password == "" {
        return Some(NoBasicAuthPassword);
      }
      req.SetBasicAuth(username, password);
      StoreAuthHeader(req.Get("Authorization"));
      return None;
    }

    /** `addBearerTokenAuth`, in the same terms. */
    method AddBearerTokenAuth(req: Request, files: Files) returns (err: Option<AuthError>)
      modifies this, req
      ensures var outcome := BearerTokenOutcome(old(config), files);
        && (outcome.Failure? ==> err == Some(outcome.error))
        && (outcome.Success? ==> err.None?)
        && (outcome.Success? && outcome.value.Some? ==>
              req.header == old(req.header)["Authorization" := outcome.value.value]
              && config == WithAuthHeader(old(config), outcome.value.value))
        && (outcome.Failure? || outcome.value.None? ==>
              req.header == old(req.header) && config == old(config))
    {
      if HasAuthHeader(config) {
        return None;
      }
      if config.bearerTokenFile != "" {
        var contents := ReadFile(files, config.bearerTokenFile);
        if contents.None? {
          return Some(FailedToReadFile);
        }
        var bearerTokenString := "Bearer " + contents.value;
        req.Set("Authorization", bearerTokenString);
        StoreAuthHeader(bearerTokenString);
        return None;
      }
      if config.bearerToken != "" {
        var bearerTokenString := "Bearer " + config.bearerToken;
        req.Set("Authorization", bearerTokenString);
        StoreAuthHeader(bearerTokenString);
      }
      return None;
    }

    /** `buildTLSConfig` as written: the client key pair is loaded whether or not one is
        named (see `TlsWithoutClientCertFails`). */
    method BuildTlsConfig(files: Files) returns (tls: TlsConfig?, err: Option<TlsError>)
      ensures var r := TlsSettingsAsWritten(config, files);
        && (r.Failure? ==> tls == null && err == Some(r.error))
        && (r.Success? ==> err.None? && tls != null && fresh(tls) && tls.Settings() == r.value)
    {
      tls := new TlsConfig();
      if config.tlsConfig.None? {
        return tls, None;
      }
      var m := config.tlsConfig.value;
      if Lookup(m, "server_name") != "" {
        tls.serverName := Lookup(m, "server_name");
      }
      if Lookup(m, "insecure_skip_verify") == "1" {
        tls.insecureSkipVerify := true;
      } else {
        tls.insecureSkipVerify := false;
      }
      err := LoadCaCertificates(tls, files);
      if err.Some? {
        return null, err;
      }
      err := LoadClientCertificate(tls, files);
      if err.Some? {
        return null, err;
      }
    }

    /** `loadCACertificates`: the CA file's contents become the root pool. */
    method LoadCaCertificates(tls: TlsConfig, files: Files) returns (err: Option<TlsError>)
      modifies tls
      ensures var r := WithCaFile(old(tls.Settings()), TlsMap(config), files);
        && (r.Failure? ==> err == Some(r.error) && tls.Settings() == old(tls.Settings()))
        && (r.Success? ==> err.None? && tls.Settings() == r.value)
    {
      var caFile := Lookup(TlsMap(config), "ca_file");
      if caFile != "" {
        var contents := ReadFile(files, caFile);
        if contents.None? {
          return Some(CaFileUnreadable(caFile));
        }
        tls.rootCAs := contents;
      }
      return None;
    }

    /** `loadClientCertificate`: the key pair becomes the only certificate. */
    method LoadClientCertificate(tls: TlsConfig, files: Files) returns (err: Option<TlsError>)
      modifies tls
      ensures var r := WithKeyPair(old(tls.Settings()), TlsMap(config), files);
        && (r.Failure? ==> err == Some(r.error) && tls.Settings() == old(tls.Settings()))
        && (r.Success? ==> err.None? && tls.Settings() == r.value)
    {
      var m := TlsMap(config);
      var certFile, keyFile := Lookup(m, "cert_file"), Lookup(m, "key_file");
      var cert, key := ReadFile(files, certFile), ReadFile(files, keyFile);
      if cert.None? || key.None? {
        return Some(KeyPairUnreadable(certFile, keyFile));
      }
      tls.certificates := [(cert.value, key.value)];
      return None;
    }
  }
}
