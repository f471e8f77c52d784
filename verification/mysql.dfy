/**
 The MySQL bindings processor: when its kind is enabled, every binding of kind
 "MySQL" becomes the `spring.datasource.*` properties of a JDBC data source.
 */
module MySql {
  import opened Wrappers
  import opened Bindings
  import opened Properties

  const Kind := "MySQL"

  const DriverKey := "spring.datasource.driver-class-name"
  const PasswordKey := "spring.datasource.password"
  const UrlKey := "spring.datasource.url"
  const UsernameKey := "spring.datasource.username"

  /** The only keys the processor can write. */
  const Keys: set<string> := {DriverKey, PasswordKey, UrlKey, UsernameKey}

  const MariaDbDriver := "org.mariadb.jdbc.Driver"
  const ConnectorJDriver := "com.mysql.cj.jdbc.Driver"

  const UrlScheme := "jdbc:mysql://"

  /** Which of the two driver classes the processor's class loader can load. */
  datatype ClassPath = ClassPath(mariaDb: bool, connectorJ: bool)
  {
    predicate HasDriver() { mariaDb || connectorJ }
  }

  /** The keys a binding writes under `cp`: the driver key only when some driver loads. */
  function Written(cp: ClassPath): set<string>
  {
    if cp.HasDriver() then Keys else Keys - {DriverKey}
  }

  /** `%s` of `String.format`: a `null` argument is rendered as the text "null". */
  function Render(v: Option<string>): (r: string)
    ensures v.Some? ==> r == v.value
    ensures v.None? ==> r == "null"
  {
    match v
    case Some(s) => s
    case None => "null"
  }

  /** `jdbc:mysql://<host>:<port>/<database>`. */
  function FormatUrl(host: string, port: string, database: string): string
  {
    UrlScheme + host + ":" + port + "/" + database
  }

  /** The data-source URL a secret yields; missing parts are rendered as "null". */
  function JdbcUrl(secret: Secret): string
  {
    FormatUrl(Render(Get(secret, "host")), Render(Get(secret, "port")), Render(Get(secret, "database")))
  }

  /** A secret holding all three parts yields `jdbc:mysql://<host>:<port>/<database>` verbatim. */
  lemma UrlOfCompleteSecret(secret: Secret)
    requires "host" in secret && "port" in secret && "database" in secret
    ensures JdbcUrl(secret) == "jdbc:mysql://" + secret["host"] + ":" + secret["port"] + "/" + secret["database"]
  {
  }

  /** Each part missing from the secret appears as the text "null" in the URL. */
  lemma UrlOfPartialSecret(secret: Secret)
    ensures var host := if "host" in secret then secret["host"] else "null";
            var port := if "port" in secret then secret["port"] else "null";
            var database := if "database" in secret then secret["database"] else "null";
            JdbcUrl(secret) == "jdbc:mysql://" + host + ":" + port + "/" + database
  {
  }

  /** A secret without a host gives a URL naming the host "null". */
  lemma MissingHost()
    ensures JdbcUrl(map["port" := "1", "database" := "d"]) == "jdbc:mysql://null:1/d"
  {
    UrlOfPartialSecret(map["port" := "1", "database" := "d"]);
  }

  /** The position of the first `c` in `s`, if any. */
  function IndexOf(s: string, c: char): (r: Option<nat>)
    ensures r.Some? ==> r.value < |s| && s[r.value] == c && c !in s[..r.value]
    ensures r.None? ==> c !in s
  {
    if |s| == 0 then None
    else if s[0] == c then Some(0)
    else match IndexOf(s[1..], c)
      case Some(i) => (assert s[..i + 1] == [s[0]] + s[1..][..i]; Some(i + 1))
      case None => (assert s == [s[0]] + s[1..]; None)
  }

  /** Splits a data-source URL back into host, port and database. */
  function ParseUrl(url: string): Option<(string, string, string)>
  {
    if |url| < |UrlScheme| || url[..|UrlScheme|] != UrlScheme then None
    else
      var rest := url[|UrlScheme|..];
      match IndexOf(rest, ':')
      case None => None
      case Some(i) =>
        var tail := rest[i + 1..];
        match IndexOf(tail, '/')
        case None => None
        case Some(j) => Some((rest[..i], tail[..j], tail[j + 1..]))
  }

  lemma IndexOfSeparator(s: string, c: char, t: string)
    requires c !in s
    ensures IndexOf(s + [c] + t, c) == Some(|s|)
  {
    var u := s + [c] + t;
    assert u[|s|] == c;
    assert u[..|s|] == s;
  }

  /**
   The URL names its three parts unambiguously as long as the host holds no ':'
   and the port no '/'.
   */
  lemma UrlRoundTrip(host: string, port: string, database: string)
    requires ':' !in host && '/' !in port
    ensures ParseUrl(FormatUrl(host, port, database)) == Some((host, port, database))
  {
    var url := FormatUrl(host, port, database);
    var tail := port + ['/'] + database;
    var rest := host + [':'] + tail;
    assert url == UrlScheme + rest;
    assert url[..|UrlScheme|] == UrlScheme;
    assert url[|UrlScheme|..] == rest;
    IndexOfSeparator(host, ':', tail);
    assert rest[..|host|] == host;
    assert rest[|host| + 1..] == tail;
    IndexOfSeparator(port, '/', database);
    assert tail[..|port|] == port;
    assert tail[|port| + 1..] == database;
  }

  /**
   What a processed binding with `secret` leaves in `after`: its URL, user name
   and password, and the preferred loadable driver; with no loadable driver the
   driver key is as it was in `before`.
   */
  ghost predicate Reflects(secret: Secret, cp: ClassPath, before: PropertyMap, after: PropertyMap)
  {
    && UrlKey in after && after[UrlKey] == Some(JdbcUrl(secret))
    && UsernameKey in after && after[UsernameKey] == Get(secret, "username")
    && PasswordKey in after && after[PasswordKey] == Get(secret, "password")
    && (cp.mariaDb ==> DriverKey in after && after[DriverKey] == Some(MariaDbDriver))
    && (!cp.mariaDb && cp.connectorJ ==> DriverKey in after && after[DriverKey] == Some(ConnectorJDriver))
    && (!cp.HasDriver() ==> SameAt(before, after, DriverKey))
  }

  /** The writes for one binding, in the order the processor performs them. */
  function ApplyBinding(binding: Binding, cp: ClassPath, props: PropertyMap): (r: PropertyMap)
    ensures Reflects(binding.secret, cp, props, r)
    ensures AgreeOutside(props, r, Written(cp))
  {
    var secret := binding.secret;
    var withDriver :=
      if cp.mariaDb then props[DriverKey := Some(MariaDbDriver)]
      else if cp.connectorJ then props[DriverKey := Some(ConnectorJDriver)]
      else props;
    var withPassword := withDriver[PasswordKey := Get(secret, "password")];
    var withUrl := withPassword[UrlKey := Some(JdbcUrl(secret))];
    withUrl[UsernameKey := Get(secret, "username")]
  }

  /** The bindings processed in order, each overwriting what the ones before wrote. */
  function ApplyAll(bindings: seq<Binding>, cp: ClassPath, props: PropertyMap): (r: PropertyMap)
    ensures |bindings| == 0 ==> r == props
    ensures |bindings| > 0 ==> Reflects(bindings[|bindings| - 1].secret, cp, props, r)
    ensures AgreeOutside(props, r, Written(cp))
  {
    if |bindings| == 0 then props
    else
      var before := ApplyAll(bindings[..|bindings| - 1], cp, props);
      var r := ApplyBinding(bindings[|bindings| - 1], cp, before);
      AgreeOutsideTrans(props, before, r, Written(cp));
      assert !cp.HasDriver() ==> SameAt(props, before, DriverKey);
      r
  }

  /**
   `process`: nothing when the MySQL kind is disabled; otherwise every MySQL
   binding is applied in order.
   */
  function Process(enabled: bool, bindings: seq<Binding>, cp: ClassPath, props: PropertyMap): (r: PropertyMap)
    ensures !enabled ==> r == props
    ensures FilterBindings(bindings, Kind) == [] ==> r == props
    ensures AgreeOutside(props, r, Written(cp))
    ensures enabled && FilterBindings(bindings, Kind) != [] ==>
              var matching := FilterBindings(bindings, Kind);
              Reflects(matching[|matching| - 1].secret, cp, props, r)
  {
    if !enabled then props
    else ApplyAll(FilterBindings(bindings, Kind), cp, props)
  }

  /**
   A last MySQL binding without a user name or password does not leave those
   keys unset: they are present and hold `null`.
   */
  lemma MissingCredentialsStoreNull(bindings: seq<Binding>, cp: ClassPath, props: PropertyMap)
    requires FilterBindings(bindings, Kind) != []
    requires var matching := FilterBindings(bindings, Kind);
             "username" !in matching[|matching| - 1].secret && "password" !in matching[|matching| - 1].secret
    ensures var r := Process(true, bindings, cp, props);
            && UsernameKey in r && r[UsernameKey] == None
            && PasswordKey in r && r[PasswordKey] == None
  {
  }

  /** A binding of another kind changes nothing, wherever it stands in the list. */
  lemma {:induction false} IgnoresOtherKinds(enabled: bool, a: seq<Binding>, b: Binding, c: seq<Binding>, cp: ClassPath, props: PropertyMap)
    requires b.kind != Kind
    ensures Process(enabled, a + [b] + c, cp, props) == Process(enabled, a + c, cp, props)
  {
    FilterSkipsOtherKind(a, b, c, Kind);
  }

  /** Only the MySQL bindings matter: processing them alone gives the same map. */
  lemma {:induction false} OnlyMatchingBindings(enabled: bool, bindings: seq<Binding>, cp: ClassPath, props: PropertyMap)
    ensures Process(enabled, FilterBindings(bindings, Kind), cp, props) == Process(enabled, bindings, cp, props)
  {
    FilterIdempotent(bindings, Kind);
  }

  /** Processing the same bindings again over its own output changes nothing. */
  lemma {:induction false} Idempotent(enabled: bool, bindings: seq<Binding>, cp: ClassPath, props: PropertyMap)
    ensures Process(enabled, bindings, cp, Process(enabled, bindings, cp, props)) == Process(enabled, bindings, cp, props)
  {
    var once := Process(enabled, bindings, cp, props);
    var twice := Process(enabled, bindings, cp, once);
    var matching := FilterBindings(bindings, Kind);
    if enabled && matching != [] {
      forall key
        ensures SameAt(twice, once, key)
      {
        if key !in Written(cp) {
          assert SameAt(once, twice, key);
        }
      }
      AgreeEverywhere(twice, once);
    }
  }

  /** Several MySQL bindings: each key holds the value of the last one. */
  lemma LastBindingWins(first: Binding, second: Binding, cp: ClassPath, props: PropertyMap)
    requires first.kind == Kind && second.kind == Kind
    ensures var r := Process(true, [first, second], cp, props);
            && r[UrlKey] == Some(JdbcUrl(second.secret))
            && r[UsernameKey] == Get(second.secret, "username")
            && r[PasswordKey] == Get(second.secret, "password")
  {
    assert FilterBindings([first, second], Kind) == [first, second] by {
      assert [first, second][..1] == [first];
      assert [first][..0] == [];
    }
  }

  /** A complete secret gives the expected URL, user name and password. */
  lemma CompleteSecret(cp: ClassPath, props: PropertyMap)
    ensures var secret := map["host" := "h", "port" := "5432", "database" := "d", "username" := "u", "password" := "p"];
            var r := Process(true, [Binding("db", Kind, "provider", secret)], cp, props);
            && r[UrlKey] == Some("jdbc:mysql://h:5432/d")
            && r[UsernameKey] == Some("u")
            && r[PasswordKey] == Some("p")
  {
    var secret := map["host" := "h", "port" := "5432", "database" := "d", "username" := "u", "password" := "p"];
    var b := Binding("db", Kind, "provider", secret);
    assert FilterBindings([b], Kind) == [b] by {
      assert [b][..0] == [];
    }
    assert JdbcUrl(secret) == "jdbc:mysql://h:5432/d";
  }
}
