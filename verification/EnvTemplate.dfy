/** The four environment files scripts/staging_env_template.py writes for a staging deployment, and
    the agreement between them that scripts/staging_preflight.py checks. */
module EnvTemplate {
  import opened Prelude
  import opened Text
  import opened EnvFile
  import A = Allowlist

  datatype Key =
    | APP_NAME | APP_VERSION | ENVIRONMENT | API_V1_PREFIX | DATABASE_URL | REDIS_URL
    | JWT_SECRET_KEY | JWT_ALGORITHM | ACCESS_TOKEN_TTL_SECONDS | REFRESH_TOKEN_TTL_SECONDS
    | TELEGRAM_BOT_TOKEN | TELEGRAM_ALLOWED_USER_IDS | CORS_ALLOWED_ORIGINS | RUN_MIGRATIONS | RUN_SEED
    | SOURCE_SYNC_SCHEDULE_SECONDS | NOTIFICATIONS_GENERATE_SCHEDULE_SECONDS
    | NOTIFICATIONS_DISPATCH_SCHEDULE_SECONDS | ANALYTICS_RECOMPUTE_SCHEDULE_SECONDS
    | FX_RATE_UPDATE_SCHEDULE_SECONDS | RETENTION_CLEANUP_SCHEDULE_SECONDS
    | NOTIFICATION_RETENTION_DAYS | SOURCE_SYNC_RETENTION_DAYS | FX_RATE_SOURCE_URL | FX_RATE_CURRENCIES
    | ERROR_REPORTING_ENABLED | ERROR_REPORTING_ENDPOINT_URL | OBSERVABILITY_DASHBOARD_URL | ALERT_CONTACT_URL
    | BACKEND_API_URL | BACKEND_ACCESS_TOKEN | TELEGRAM_WEBAPP_URL | SUPPORT_CONTACT_URL
    | PRIVACY_POLICY_URL | TERMS_URL | BOT_RUN_MODE | BOT_POLLING_TIMEOUT_SECONDS | TELEGRAM_WEBHOOK_URL
    | TELEGRAM_WEBHOOK_SECRET | TELEGRAM_WEBHOOK_PATH | WEBHOOK_HOST | WEBHOOK_PORT
    | NEXT_PUBLIC_APP_ENV | NEXT_PUBLIC_API_BASE_URL | NEXT_PUBLIC_DEMO_ACCESS_TOKEN
    | NEXT_PUBLIC_SUPPORT_CONTACT_URL | NEXT_PUBLIC_PRIVACY_POLICY_URL | NEXT_PUBLIC_TERMS_URL
    | KUPIKUPI_API_BASE_URL | KUPIKUPI_WEBAPP_URL | KUPIKUPI_SUPPORT_URL | KUPIKUPI_PRIVACY_URL
    | KUPIKUPI_TERMS_URL | KUPIKUPI_ACCESS_TOKEN | KUPIKUPI_ADMIN_ACCESS_TOKEN | KUPIKUPI_CONFIRM_WATCHLIST
    | KUPIKUPI_RUN_NOTIFICATION_SMOKE | KUPIKUPI_NOTIFICATION_DISPATCH_LIMIT | KUPIKUPI_STORE_FEED_CONFIG
    | KUPIKUPI_DEMO_DATA_ONLY

  // How a key is written: the name of its constructor.
  type Spelling = Key -> string

  ghost predicate Spelled(text: Spelling) {
    && (forall k: Key :: KeyOk(text(k)))
    && (forall j: Key, k: Key | text(j) == text(k) :: j == k)
  }

  // The place of a key in the list above.
  function Rank(k: Key): (r: nat)
    ensures r < 60
  {
    match k
    case APP_NAME => 0 case APP_VERSION => 1 case ENVIRONMENT => 2 case API_V1_PREFIX => 3
    case DATABASE_URL => 4 case REDIS_URL => 5 case JWT_SECRET_KEY => 6 case JWT_ALGORITHM => 7
    case ACCESS_TOKEN_TTL_SECONDS => 8 case REFRESH_TOKEN_TTL_SECONDS => 9 case TELEGRAM_BOT_TOKEN => 10
    case TELEGRAM_ALLOWED_USER_IDS => 11 case CORS_ALLOWED_ORIGINS => 12 case RUN_MIGRATIONS => 13
    case RUN_SEED => 14 case SOURCE_SYNC_SCHEDULE_SECONDS => 15
    case NOTIFICATIONS_GENERATE_SCHEDULE_SECONDS => 16 case NOTIFICATIONS_DISPATCH_SCHEDULE_SECONDS => 17
    case ANALYTICS_RECOMPUTE_SCHEDULE_SECONDS => 18 case FX_RATE_UPDATE_SCHEDULE_SECONDS => 19
    case RETENTION_CLEANUP_SCHEDULE_SECONDS => 20 case NOTIFICATION_RETENTION_DAYS => 21
    case SOURCE_SYNC_RETENTION_DAYS => 22 case FX_RATE_SOURCE_URL => 23 case FX_RATE_CURRENCIES => 24
    case ERROR_REPORTING_ENABLED => 25 case ERROR_REPORTING_ENDPOINT_URL => 26
    case OBSERVABILITY_DASHBOARD_URL => 27 case ALERT_CONTACT_URL => 28 case BACKEND_API_URL => 29
    case BACKEND_ACCESS_TOKEN => 30 case TELEGRAM_WEBAPP_URL => 31 case SUPPORT_CONTACT_URL => 32
    case PRIVACY_POLICY_URL => 33 case TERMS_URL => 34 case BOT_RUN_MODE => 35
    case BOT_POLLING_TIMEOUT_SECONDS => 36 case TELEGRAM_WEBHOOK_URL => 37 case TELEGRAM_WEBHOOK_SECRET => 38
    case TELEGRAM_WEBHOOK_PATH => 39 case WEBHOOK_HOST => 40 case WEBHOOK_PORT => 41
    case NEXT_PUBLIC_APP_ENV => 42 case NEXT_PUBLIC_API_BASE_URL => 43 case NEXT_PUBLIC_DEMO_ACCESS_TOKEN => 44
    case NEXT_PUBLIC_SUPPORT_CONTACT_URL => 45 case NEXT_PUBLIC_PRIVACY_POLICY_URL => 46
    case NEXT_PUBLIC_TERMS_URL => 47 case KUPIKUPI_API_BASE_URL => 48 case KUPIKUPI_WEBAPP_URL => 49
    case KUPIKUPI_SUPPORT_URL => 50 case KUPIKUPI_PRIVACY_URL => 51 case KUPIKUPI_TERMS_URL => 52
    case KUPIKUPI_ACCESS_TOKEN => 53 case KUPIKUPI_ADMIN_ACCESS_TOKEN => 54
    case KUPIKUPI_CONFIRM_WATCHLIST => 55 case KUPIKUPI_RUN_NOTIFICATION_SMOKE => 56
    case KUPIKUPI_NOTIFICATION_DISPATCH_LIMIT => 57 case KUPIKUPI_STORE_FEED_CONFIG => 58
    case KUPIKUPI_DEMO_DATA_ONLY => 59
  }

  lemma RankInjective(j: Key, k: Key)
    requires Rank(j) == Rank(k)
    ensures j == k
  {
    var r := Rank(j);
    if r < 15 {
      RankBelow15(j, k);
    } else if r < 30 {
      RankBelow30(j, k);
    } else if r < 45 {
      RankBelow45(j, k);
    } else {
      RankBelow60(j, k);
    }
  }

  lemma RankBelow15(j: Key, k: Key)
    requires 0 <= Rank(j) == Rank(k) < 15
    ensures j == k
  {}

  lemma RankBelow30(j: Key, k: Key)
    requires 15 <= Rank(j) == Rank(k) < 30
    ensures j == k
  {}

  lemma RankBelow45(j: Key, k: Key)
    requires 30 <= Rank(j) == Rank(k) < 45
    ensures j == k
  {}

  lemma RankBelow60(j: Key, k: Key)
    requires 45 <= Rank(j) == Rank(k) < 60
    ensures j == k
  {}

  // There are such spellings: one letter for each key will do.
  lemma SpellingExists()
    ensures exists text: Spelling :: Spelled(text)
  {
    var text: Spelling := (k: Key) => [('A' as nat + Rank(k)) as char];
    forall j: Key, k: Key | text(j) == text(k) ensures j == k {
      assert text(j)[0] == text(k)[0];
      RankInjective(j, k);
    }
    assert Spelled(text);
  }

  datatype Setting = Setting(key: Key, value: string)

  datatype Arguments = Arguments(
    apiBaseUrl: string, webappUrl: string, telegramBotToken: string, telegramAllowedUserIds: string,
    supportContactUrl: string, privacyPolicyUrl: string, termsUrl: string, jwtSecretKey: string,
    databaseUrl: string, redisUrl: string, errorReportingEndpointUrl: string,
    observabilityDashboardUrl: string, alertContactUrl: string, operatorAdminAccessToken: string,
    botRunMode: string, telegramWebhookUrl: string, telegramWebhookSecret: string)

  // Everything before the third slash.
  function Origin(url: string): string {
    var parts := Split(url, '/');
    Join(if |parts| <= 3 then parts else parts[..3], '/')
  }

  function Backend(a: Arguments): seq<Setting> {
    [Setting(APP_NAME, "Kupikupi API"), Setting(APP_VERSION, "staging"), Setting(ENVIRONMENT, "staging"),
     Setting(API_V1_PREFIX, "/v1"), Setting(DATABASE_URL, a.databaseUrl), Setting(REDIS_URL, a.redisUrl),
     Setting(JWT_SECRET_KEY, a.jwtSecretKey), Setting(JWT_ALGORITHM, "HS256"),
     Setting(ACCESS_TOKEN_TTL_SECONDS, "900"), Setting(REFRESH_TOKEN_TTL_SECONDS, "2592000"),
     Setting(TELEGRAM_BOT_TOKEN, a.telegramBotToken),
     Setting(TELEGRAM_ALLOWED_USER_IDS, a.telegramAllowedUserIds),
     Setting(CORS_ALLOWED_ORIGINS, Origin(a.webappUrl)),
     Setting(RUN_MIGRATIONS, "1"), Setting(RUN_SEED, "0"),
     Setting(SOURCE_SYNC_SCHEDULE_SECONDS, "300"), Setting(NOTIFICATIONS_GENERATE_SCHEDULE_SECONDS, "300"),
     Setting(NOTIFICATIONS_DISPATCH_SCHEDULE_SECONDS, "120"),
     Setting(ANALYTICS_RECOMPUTE_SCHEDULE_SECONDS, "3600"), Setting(FX_RATE_UPDATE_SCHEDULE_SECONDS, "43200"),
     Setting(RETENTION_CLEANUP_SCHEDULE_SECONDS, "86400"),
     Setting(NOTIFICATION_RETENTION_DAYS, "180"), Setting(SOURCE_SYNC_RETENTION_DAYS, "90"),
     Setting(FX_RATE_SOURCE_URL, "https://api.exchangerate.host/latest?base=EUR&symbols=CZK"),
     Setting(FX_RATE_CURRENCIES, "CZK"),
     Setting(ERROR_REPORTING_ENABLED, if a.errorReportingEndpointUrl != "" then "1" else "0"),
     Setting(ERROR_REPORTING_ENDPOINT_URL, a.errorReportingEndpointUrl),
     Setting(OBSERVABILITY_DASHBOARD_URL, a.observabilityDashboardUrl),
     Setting(ALERT_CONTACT_URL, a.alertContactUrl)]
  }

  function Bot(a: Arguments): seq<Setting> {
    [Setting(TELEGRAM_BOT_TOKEN, a.telegramBotToken), Setting(BACKEND_API_URL, a.apiBaseUrl),
     Setting(BACKEND_ACCESS_TOKEN, ""), Setting(TELEGRAM_WEBAPP_URL, a.webappUrl),
     Setting(TELEGRAM_ALLOWED_USER_IDS, a.telegramAllowedUserIds),
     Setting(SUPPORT_CONTACT_URL, a.supportContactUrl), Setting(PRIVACY_POLICY_URL, a.privacyPolicyUrl),
     Setting(TERMS_URL, a.termsUrl), Setting(BOT_RUN_MODE, a.botRunMode),
     Setting(BOT_POLLING_TIMEOUT_SECONDS, "30"), Setting(TELEGRAM_WEBHOOK_URL, a.telegramWebhookUrl),
     Setting(TELEGRAM_WEBHOOK_SECRET, a.telegramWebhookSecret),
     Setting(TELEGRAM_WEBHOOK_PATH, "/telegram/webhook"), Setting(WEBHOOK_HOST, "0.0.0.0"),
     Setting(WEBHOOK_PORT, "8080")]
  }

  function Webapp(a: Arguments): seq<Setting> {
    [Setting(NEXT_PUBLIC_APP_ENV, "staging"), Setting(NEXT_PUBLIC_API_BASE_URL, a.apiBaseUrl),
     Setting(NEXT_PUBLIC_DEMO_ACCESS_TOKEN, ""), Setting(NEXT_PUBLIC_SUPPORT_CONTACT_URL, a.supportContactUrl),
     Setting(NEXT_PUBLIC_PRIVACY_POLICY_URL, a.privacyPolicyUrl), Setting(NEXT_PUBLIC_TERMS_URL, a.termsUrl)]
  }

  function Operator(a: Arguments): seq<Setting> {
    [Setting(KUPIKUPI_API_BASE_URL, a.apiBaseUrl), Setting(KUPIKUPI_WEBAPP_URL, a.webappUrl),
     Setting(KUPIKUPI_SUPPORT_URL, a.supportContactUrl), Setting(KUPIKUPI_PRIVACY_URL, a.privacyPolicyUrl),
     Setting(KUPIKUPI_TERMS_URL, a.termsUrl), Setting(KUPIKUPI_ACCESS_TOKEN, ""),
     Setting(KUPIKUPI_ADMIN_ACCESS_TOKEN, a.operatorAdminAccessToken), Setting(KUPIKUPI_CONFIRM_WATCHLIST, "0"),
     Setting(KUPIKUPI_RUN_NOTIFICATION_SMOKE, "0"), Setting(KUPIKUPI_NOTIFICATION_DISPATCH_LIMIT, "100"),
     Setting(KUPIKUPI_STORE_FEED_CONFIG, "/tmp/kupikupi-store-feed.json"), Setting(KUPIKUPI_DEMO_DATA_ONLY, "0")]
  }

  function Written(text: Spelling, settings: seq<Setting>): (r: seq<Entry>)
    ensures |r| == |settings|
    ensures forall i | 0 <= i < |settings| :: r[i] == Entry(text(settings[i].key), settings[i].value)
  {
    seq(|settings|, i requires 0 <= i < |settings| => Entry(text(settings[i].key), settings[i].value))
  }

  // The file as it is written, and as the preflight script sees it.
  function File(text: Spelling, settings: seq<Setting>): string { PrintedEnv(Written(text, settings)) }

  function Seen(text: Spelling, settings: seq<Setting>): map<string, string> {
    Loaded(Lines(File(text, settings)))
  }

  function Get(env: map<string, string>, name: string): Option<string> {
    if name in env then Some(env[name]) else None
  }

  predicate OneLineSettings(settings: seq<Setting>) {
    settings == [] || (OneLine(settings[0].value) && OneLineSettings(settings[1..]))
  }

  lemma {:induction false} OneLineAt(settings: seq<Setting>, i: nat)
    requires OneLineSettings(settings) && i < |settings|
    ensures OneLine(settings[i].value)
  {
    if i > 0 {
      OneLineAt(settings[1..], i - 1);
    }
  }

  // The setting stands at place i and is the last of its key.
  predicate At(settings: seq<Setting>, i: nat, setting: Setting) {
    && i < |settings| && settings[i] == setting
    && forall j | i < j < |settings| :: settings[j].key != setting.key
  }

  lemma {:induction false} LastWins(entries: seq<Entry>, i: nat)
    requires i < |entries| && forall j | i < j < |entries| :: entries[j].key != entries[i].key
    ensures Get(MapOf(entries), entries[i].key) == Some(entries[i].value)
  {
    var n := |entries| - 1;
    if i < n {
      LastWins(entries[..n], i);
    }
  }

  // What the preflight script sees under a key: the value, less the quotes at its ends.
  lemma SeenValue(text: Spelling, settings: seq<Setting>, i: nat, setting: Setting)
    requires Spelled(text) && OneLineSettings(settings) && At(settings, i, setting)
    ensures Get(Seen(text, settings), text(setting.key)) == Some(WithoutQuotes(setting.value))
  {
    var entries := Written(text, settings);
    forall e | e in entries ensures KeyOk(e.key) && OneLine(e.value) {
      var j :| 0 <= j < |entries| && entries[j] == e;
      OneLineAt(settings, j);
    }
    LoadOfPrinted(entries);
    LastWins(Unquoted(entries), i);
  }

  // The files show the same under two keys.
  ghost predicate Alike(text: Spelling, s: seq<Setting>, j: Key, t: seq<Setting>, k: Key) {
    Get(Seen(text, s), text(j)) == Get(Seen(text, t), text(k))
  }

  lemma SeenAlike(text: Spelling, s: seq<Setting>, i: nat, t: seq<Setting>, j: nat, first: Setting, second: Setting)
    requires Spelled(text) && OneLineSettings(s) && OneLineSettings(t)
    requires At(s, i, first) && At(t, j, second) && first.value == second.value
    ensures Alike(text, s, first.key, t, second.key)
  {
    SeenValue(text, s, i, first);
    SeenValue(text, t, j, second);
  }

  // The seven equalities between services that the preflight script demands.
  ghost predicate ServicesAgree(
    text: Spelling, backend: seq<Setting>, bot: seq<Setting>, webapp: seq<Setting>, operator: seq<Setting>)
  {
    && Alike(text, backend, TELEGRAM_BOT_TOKEN, bot, TELEGRAM_BOT_TOKEN)
    && Alike(text, backend, TELEGRAM_ALLOWED_USER_IDS, bot, TELEGRAM_ALLOWED_USER_IDS)
    && Alike(text, bot, BACKEND_API_URL, webapp, NEXT_PUBLIC_API_BASE_URL)
    && Alike(text, operator, KUPIKUPI_API_BASE_URL, webapp, NEXT_PUBLIC_API_BASE_URL)
    && Alike(text, operator, KUPIKUPI_WEBAPP_URL, bot, TELEGRAM_WEBAPP_URL)
    && Alike(text, operator, KUPIKUPI_PRIVACY_URL, webapp, NEXT_PUBLIC_PRIVACY_POLICY_URL)
    && Alike(text, operator, KUPIKUPI_TERMS_URL, webapp, NEXT_PUBLIC_TERMS_URL)
  }

  lemma BackendPlaces(a: Arguments)
    ensures At(Backend(a), 10, Setting(TELEGRAM_BOT_TOKEN, a.telegramBotToken))
    ensures At(Backend(a), 11, Setting(TELEGRAM_ALLOWED_USER_IDS, a.telegramAllowedUserIds))
  {}

  lemma BotPlaces(a: Arguments)
    ensures At(Bot(a), 0, Setting(TELEGRAM_BOT_TOKEN, a.telegramBotToken))
    ensures At(Bot(a), 4, Setting(TELEGRAM_ALLOWED_USER_IDS, a.telegramAllowedUserIds))
    ensures At(Bot(a), 1, Setting(BACKEND_API_URL, a.apiBaseUrl))
    ensures At(Bot(a), 3, Setting(TELEGRAM_WEBAPP_URL, a.webappUrl))
  {}

  lemma WebappPlaces(a: Arguments)
    ensures At(Webapp(a), 1, Setting(NEXT_PUBLIC_API_BASE_URL, a.apiBaseUrl))
    ensures At(Webapp(a), 4, Setting(NEXT_PUBLIC_PRIVACY_POLICY_URL, a.privacyPolicyUrl))
    ensures At(Webapp(a), 5, Setting(NEXT_PUBLIC_TERMS_URL, a.termsUrl))
  {}

  lemma OperatorPlaces(a: Arguments)
    ensures At(Operator(a), 0, Setting(KUPIKUPI_API_BASE_URL, a.apiBaseUrl))
    ensures At(Operator(a), 1, Setting(KUPIKUPI_WEBAPP_URL, a.webappUrl))
    ensures At(Operator(a), 3, Setting(KUPIKUPI_PRIVACY_URL, a.privacyPolicyUrl))
    ensures At(Operator(a), 4, Setting(KUPIKUPI_TERMS_URL, a.termsUrl))
  {}

  ghost predicate Placed(
    a: Arguments, backend: seq<Setting>, bot: seq<Setting>, webapp: seq<Setting>, operator: seq<Setting>)
  {
    && At(backend, 10, Setting(TELEGRAM_BOT_TOKEN, a.telegramBotToken))
    && At(backend, 11, Setting(TELEGRAM_ALLOWED_USER_IDS, a.telegramAllowedUserIds))
    && At(bot, 0, Setting(TELEGRAM_BOT_TOKEN, a.telegramBotToken))
    && At(bot, 4, Setting(TELEGRAM_ALLOWED_USER_IDS, a.telegramAllowedUserIds))
    && At(bot, 1, Setting(BACKEND_API_URL, a.apiBaseUrl))
    && At(bot, 3, Setting(TELEGRAM_WEBAPP_URL, a.webappUrl))
    && At(webapp, 1, Setting(NEXT_PUBLIC_API_BASE_URL, a.apiBaseUrl))
    && At(webapp, 4, Setting(NEXT_PUBLIC_PRIVACY_POLICY_URL, a.privacyPolicyUrl))
    && At(webapp, 5, Setting(NEXT_PUBLIC_TERMS_URL, a.termsUrl))
    && At(operator, 0, Setting(KUPIKUPI_API_BASE_URL, a.apiBaseUrl))
    && At(operator, 1, Setting(KUPIKUPI_WEBAPP_URL, a.webappUrl))
    && At(operator, 3, Setting(KUPIKUPI_PRIVACY_URL, a.privacyPolicyUrl))
    && At(operator, 4, Setting(KUPIKUPI_TERMS_URL, a.termsUrl))
  }

  lemma PlacedFilesAgree(text: Spelling, a: Arguments, backend: seq<Setting>, bot: seq<Setting>,
                         webapp: seq<Setting>, operator: seq<Setting>)
    requires Spelled(text) && Placed(a, backend, bot, webapp, operator)
    requires OneLineSettings(backend) && OneLineSettings(bot) && OneLineSettings(webapp) && OneLineSettings(operator)
    ensures ServicesAgree(text, backend, bot, webapp, operator)
  {
    var token := Setting(TELEGRAM_BOT_TOKEN, a.telegramBotToken);
    var allowed := Setting(TELEGRAM_ALLOWED_USER_IDS, a.telegramAllowedUserIds);
    var api := Setting(NEXT_PUBLIC_API_BASE_URL, a.apiBaseUrl);
    SeenAlike(text, backend, 10, bot, 0, token, token);
    SeenAlike(text, backend, 11, bot, 4, allowed, allowed);
    SeenAlike(text, bot, 1, webapp, 1, Setting(BACKEND_API_URL, a.apiBaseUrl), api);
    SeenAlike(text, operator, 0, webapp, 1, Setting(KUPIKUPI_API_BASE_URL, a.apiBaseUrl), api);
    SeenAlike(text, operator, 1, bot, 3,
              Setting(KUPIKUPI_WEBAPP_URL, a.webappUrl), Setting(TELEGRAM_WEBAPP_URL, a.webappUrl));
    SeenAlike(text, operator, 3, webapp, 4, Setting(KUPIKUPI_PRIVACY_URL, a.privacyPolicyUrl),
              Setting(NEXT_PUBLIC_PRIVACY_POLICY_URL, a.privacyPolicyUrl));
    SeenAlike(text, operator, 4, webapp, 5, Setting(KUPIKUPI_TERMS_URL, a.termsUrl),
              Setting(NEXT_PUBLIC_TERMS_URL, a.termsUrl));
  }

  // Files written from one set of arguments without line breaks agree when they are read back,
  // even where quotes at the ends of a value were lost.
  lemma WrittenFilesAgree(text: Spelling, a: Arguments, backend: seq<Setting>, bot: seq<Setting>,
                          webapp: seq<Setting>, operator: seq<Setting>)
    requires Spelled(text)
    requires backend == Backend(a) && bot == Bot(a) && webapp == Webapp(a) && operator == Operator(a)
    requires OneLineSettings(backend) && OneLineSettings(bot) && OneLineSettings(webapp) && OneLineSettings(operator)
    ensures ServicesAgree(text, backend, bot, webapp, operator)
  {
    BackendPlaces(a);
    BotPlaces(a);
    WebappPlaces(a);
    OperatorPlaces(a);
    PlacedFilesAgree(text, a, backend, bot, webapp, operator);
  }

  // ---- every argument reaches its services ----

  // The preflight script sees the value, less the quotes at its ends, under the key.
  ghost predicate Shows(text: Spelling, settings: seq<Setting>, key: Key, value: string) {
    Get(Seen(text, settings), text(key)) == Some(WithoutQuotes(value))
  }

  lemma BackendDatabasePlace(a: Arguments)
    ensures At(Backend(a), 4, Setting(DATABASE_URL, a.databaseUrl))
  {}

  lemma BackendRedisPlace(a: Arguments)
    ensures At(Backend(a), 5, Setting(REDIS_URL, a.redisUrl))
  {}

  lemma BackendSecretPlace(a: Arguments)
    ensures At(Backend(a), 6, Setting(JWT_SECRET_KEY, a.jwtSecretKey))
  {}

  lemma BackendReportPlaces(a: Arguments)
    ensures At(Backend(a), 25, Setting(ERROR_REPORTING_ENABLED, if a.errorReportingEndpointUrl == "" then "0" else "1"))
    ensures At(Backend(a), 26, Setting(ERROR_REPORTING_ENDPOINT_URL, a.errorReportingEndpointUrl))
    ensures At(Backend(a), 27, Setting(OBSERVABILITY_DASHBOARD_URL, a.observabilityDashboardUrl))
    ensures At(Backend(a), 28, Setting(ALERT_CONTACT_URL, a.alertContactUrl))
  {}

  lemma BotLinkPlaces(a: Arguments)
    ensures At(Bot(a), 5, Setting(SUPPORT_CONTACT_URL, a.supportContactUrl))
    ensures At(Bot(a), 6, Setting(PRIVACY_POLICY_URL, a.privacyPolicyUrl)) && At(Bot(a), 7, Setting(TERMS_URL, a.termsUrl))
  {}

  lemma BotModePlaces(a: Arguments)
    ensures At(Bot(a), 8, Setting(BOT_RUN_MODE, a.botRunMode))
    ensures At(Bot(a), 10, Setting(TELEGRAM_WEBHOOK_URL, a.telegramWebhookUrl))
    ensures At(Bot(a), 11, Setting(TELEGRAM_WEBHOOK_SECRET, a.telegramWebhookSecret))
  {}

  lemma SupportPlaces(a: Arguments)
    ensures At(Webapp(a), 3, Setting(NEXT_PUBLIC_SUPPORT_CONTACT_URL, a.supportContactUrl))
    ensures At(Operator(a), 2, Setting(KUPIKUPI_SUPPORT_URL, a.supportContactUrl))
    ensures At(Operator(a), 6, Setting(KUPIKUPI_ADMIN_ACCESS_TOKEN, a.operatorAdminAccessToken))
  {}

  // Stores, secrets and reporting: error reporting is on exactly if it has an endpoint.
  lemma BackendShows(text: Spelling, a: Arguments, backend: seq<Setting>)
    requires Spelled(text) && backend == Backend(a) && OneLineSettings(backend)
    ensures Shows(text, backend, DATABASE_URL, a.databaseUrl) && Shows(text, backend, REDIS_URL, a.redisUrl)
    ensures Shows(text, backend, JWT_SECRET_KEY, a.jwtSecretKey)
    ensures Shows(text, backend, ERROR_REPORTING_ENABLED, if a.errorReportingEndpointUrl == "" then "0" else "1")
    ensures Shows(text, backend, ERROR_REPORTING_ENDPOINT_URL, a.errorReportingEndpointUrl)
    ensures Shows(text, backend, OBSERVABILITY_DASHBOARD_URL, a.observabilityDashboardUrl)
    ensures Shows(text, backend, ALERT_CONTACT_URL, a.alertContactUrl)
  {
    BackendDatabasePlace(a);
    BackendRedisPlace(a);
    BackendSecretPlace(a);
    BackendReportPlaces(a);
    PlacedStoresShow(text, a, backend);
    PlacedReportsShow(text, a, backend);
  }

  lemma PlacedStoresShow(text: Spelling, a: Arguments, backend: seq<Setting>)
    requires Spelled(text) && OneLineSettings(backend)
    requires At(backend, 4, Setting(DATABASE_URL, a.databaseUrl)) && At(backend, 5, Setting(REDIS_URL, a.redisUrl))
    requires At(backend, 6, Setting(JWT_SECRET_KEY, a.jwtSecretKey))
    ensures Shows(text, backend, DATABASE_URL, a.databaseUrl) && Shows(text, backend, REDIS_URL, a.redisUrl)
    ensures Shows(text, backend, JWT_SECRET_KEY, a.jwtSecretKey)
  {
    SeenValue(text, backend, 4, Setting(DATABASE_URL, a.databaseUrl));
    SeenValue(text, backend, 5, Setting(REDIS_URL, a.redisUrl));
    SeenValue(text, backend, 6, Setting(JWT_SECRET_KEY, a.jwtSecretKey));
  }

  lemma PlacedReportsShow(text: Spelling, a: Arguments, backend: seq<Setting>)
    requires Spelled(text) && OneLineSettings(backend)
    requires At(backend, 25, Setting(ERROR_REPORTING_ENABLED, if a.errorReportingEndpointUrl == "" then "0" else "1"))
    requires At(backend, 26, Setting(ERROR_REPORTING_ENDPOINT_URL, a.errorReportingEndpointUrl))
    requires At(backend, 27, Setting(OBSERVABILITY_DASHBOARD_URL, a.observabilityDashboardUrl))
    requires At(backend, 28, Setting(ALERT_CONTACT_URL, a.alertContactUrl))
    ensures Shows(text, backend, ERROR_REPORTING_ENABLED, if a.errorReportingEndpointUrl == "" then "0" else "1")
    ensures Shows(text, backend, ERROR_REPORTING_ENDPOINT_URL, a.errorReportingEndpointUrl)
    ensures Shows(text, backend, OBSERVABILITY_DASHBOARD_URL, a.observabilityDashboardUrl)
    ensures Shows(text, backend, ALERT_CONTACT_URL, a.alertContactUrl)
  {
    SeenValue(text, backend, 25, Setting(ERROR_REPORTING_ENABLED, if a.errorReportingEndpointUrl == "" then "0" else "1"));
    SeenValue(text, backend, 26, Setting(ERROR_REPORTING_ENDPOINT_URL, a.errorReportingEndpointUrl));
    SeenValue(text, backend, 27, Setting(OBSERVABILITY_DASHBOARD_URL, a.observabilityDashboardUrl));
    SeenValue(text, backend, 28, Setting(ALERT_CONTACT_URL, a.alertContactUrl));
  }

  // The addresses of the services, the token and the allowlist, and the links.
  lemma BotShowsServices(text: Spelling, a: Arguments, bot: seq<Setting>)
    requires Spelled(text) && bot == Bot(a) && OneLineSettings(bot)
    ensures Shows(text, bot, BACKEND_API_URL, a.apiBaseUrl) && Shows(text, bot, TELEGRAM_WEBAPP_URL, a.webappUrl)
    ensures Shows(text, bot, TELEGRAM_BOT_TOKEN, a.telegramBotToken)
    ensures Shows(text, bot, TELEGRAM_ALLOWED_USER_IDS, a.telegramAllowedUserIds)
    ensures Shows(text, bot, SUPPORT_CONTACT_URL, a.supportContactUrl)
    ensures Shows(text, bot, PRIVACY_POLICY_URL, a.privacyPolicyUrl) && Shows(text, bot, TERMS_URL, a.termsUrl)
  {
    BotPlaces(a);
    BotLinkPlaces(a);
    PlacedServicesShow(text, a, bot);
  }

  lemma PlacedServicesShow(text: Spelling, a: Arguments, bot: seq<Setting>)
    requires Spelled(text) && OneLineSettings(bot)
    requires At(bot, 0, Setting(TELEGRAM_BOT_TOKEN, a.telegramBotToken))
    requires At(bot, 1, Setting(BACKEND_API_URL, a.apiBaseUrl)) && At(bot, 3, Setting(TELEGRAM_WEBAPP_URL, a.webappUrl))
    requires At(bot, 4, Setting(TELEGRAM_ALLOWED_USER_IDS, a.telegramAllowedUserIds))
    requires At(bot, 5, Setting(SUPPORT_CONTACT_URL, a.supportContactUrl))
    requires At(bot, 6, Setting(PRIVACY_POLICY_URL, a.privacyPolicyUrl)) && At(bot, 7, Setting(TERMS_URL, a.termsUrl))
    ensures Shows(text, bot, BACKEND_API_URL, a.apiBaseUrl) && Shows(text, bot, TELEGRAM_WEBAPP_URL, a.webappUrl)
    ensures Shows(text, bot, TELEGRAM_BOT_TOKEN, a.telegramBotToken)
    ensures Shows(text, bot, TELEGRAM_ALLOWED_USER_IDS, a.telegramAllowedUserIds)
    ensures Shows(text, bot, SUPPORT_CONTACT_URL, a.supportContactUrl)
    ensures Shows(text, bot, PRIVACY_POLICY_URL, a.privacyPolicyUrl) && Shows(text, bot, TERMS_URL, a.termsUrl)
  {
    SeenValue(text, bot, 0, Setting(TELEGRAM_BOT_TOKEN, a.telegramBotToken));
    SeenValue(text, bot, 1, Setting(BACKEND_API_URL, a.apiBaseUrl));
    SeenValue(text, bot, 3, Setting(TELEGRAM_WEBAPP_URL, a.webappUrl));
    SeenValue(text, bot, 4, Setting(TELEGRAM_ALLOWED_USER_IDS, a.telegramAllowedUserIds));
    SeenValue(text, bot, 5, Setting(SUPPORT_CONTACT_URL, a.supportContactUrl));
    SeenValue(text, bot, 6, Setting(PRIVACY_POLICY_URL, a.privacyPolicyUrl));
    SeenValue(text, bot, 7, Setting(TERMS_URL, a.termsUrl));
  }

  // The way the bot runs.
  lemma BotShowsMode(text: Spelling, a: Arguments, bot: seq<Setting>)
    requires Spelled(text) && bot == Bot(a) && OneLineSettings(bot)
    ensures Shows(text, bot, BOT_RUN_MODE, a.botRunMode)
    ensures Shows(text, bot, TELEGRAM_WEBHOOK_URL, a.telegramWebhookUrl)
    ensures Shows(text, bot, TELEGRAM_WEBHOOK_SECRET, a.telegramWebhookSecret)
  {
    BotModePlaces(a);
    SeenValue(text, bot, 8, Setting(BOT_RUN_MODE, a.botRunMode));
    SeenValue(text, bot, 10, Setting(TELEGRAM_WEBHOOK_URL, a.telegramWebhookUrl));
    SeenValue(text, bot, 11, Setting(TELEGRAM_WEBHOOK_SECRET, a.telegramWebhookSecret));
  }

  // The links of the web app and the operator, and the admin's token.
  lemma LinksShow(text: Spelling, a: Arguments, webapp: seq<Setting>, operator: seq<Setting>)
    requires Spelled(text) && webapp == Webapp(a) && operator == Operator(a)
    requires OneLineSettings(webapp) && OneLineSettings(operator)
    ensures Shows(text, webapp, NEXT_PUBLIC_SUPPORT_CONTACT_URL, a.supportContactUrl)
    ensures Shows(text, webapp, NEXT_PUBLIC_PRIVACY_POLICY_URL, a.privacyPolicyUrl)
    ensures Shows(text, webapp, NEXT_PUBLIC_TERMS_URL, a.termsUrl)
    ensures Shows(text, operator, KUPIKUPI_SUPPORT_URL, a.supportContactUrl)
    ensures Shows(text, operator, KUPIKUPI_ADMIN_ACCESS_TOKEN, a.operatorAdminAccessToken)
  {
    WebappPlaces(a);
    SupportPlaces(a);
    SeenValue(text, webapp, 3, Setting(NEXT_PUBLIC_SUPPORT_CONTACT_URL, a.supportContactUrl));
    SeenValue(text, webapp, 4, Setting(NEXT_PUBLIC_PRIVACY_POLICY_URL, a.privacyPolicyUrl));
    SeenValue(text, webapp, 5, Setting(NEXT_PUBLIC_TERMS_URL, a.termsUrl));
    SeenValue(text, operator, 2, Setting(KUPIKUPI_SUPPORT_URL, a.supportContactUrl));
    SeenValue(text, operator, 6, Setting(KUPIKUPI_ADMIN_ACCESS_TOKEN, a.operatorAdminAccessToken));
  }

  // ---- the allowed origins ----

  lemma SplitStart(start: string, rest: string)
    requires '/' !in start
    ensures Split(start + "//" + rest, '/') == [start, ""] + Split(rest, '/')
  {
    SplitFirst("", '/', rest);
    SplitFirst(start, '/', ['/'] + rest);
    assert "" + ['/'] + rest == ['/'] + rest;
    assert start + "//" + rest == start + ['/'] + (['/'] + rest);
  }

  lemma JoinOfThree(start: string, host: string)
    ensures Join([start, "", host], '/') == start + "//" + host
  {
    var last: seq<string> := [host];
    var two: seq<string> := ["", host];
    var three: seq<string> := [start, "", host];
    assert two[1..] == last && three[1..] == two;
    assert Join(two, '/') == "" + ['/'] + host;
    assert Join(three, '/') == start + ['/'] + ("" + ['/'] + host);
  }

  // The origin of scheme://host/path is scheme://host.
  lemma OriginOfUrl(scheme: string, host: string, path: string)
    requires '/' !in scheme && '/' !in host && (path == "" || path[0] == '/')
    ensures Origin(scheme + "://" + host + path) == scheme + "://" + host
  {
    var start, rest := scheme + ":", host + path;
    assert scheme + "://" + host + path == start + "//" + rest;
    SplitStart(start, rest);
    if path == "" {
      assert rest == host;
      SplitOne(host, '/');
    } else {
      SplitFirst(host, '/', path[1..]);
      assert host + ['/'] + path[1..] == rest;
    }
    var parts := Split(start + "//" + rest, '/');
    assert parts[..3] == [start, "", host];
    assert |parts| == 3 ==> parts == parts[..3];
    JoinOfThree(start, host);
    assert start + "//" + host == scheme + "://" + host;
  }

  // The eighth check: the origin of the web app, as the preflight script reads it off the URL, is
  // among the origins the backend allows.
  ghost predicate OriginAllowed(text: Spelling, urlOrigin: string -> string, backend: seq<Setting>, bot: seq<Setting>) {
    OriginListed(urlOrigin, Get(Seen(text, bot), text(TELEGRAM_WEBAPP_URL)), Get(Seen(text, backend), text(CORS_ALLOWED_ORIGINS)))
  }

  // An absent value reads as the empty text.
  predicate OriginListed(urlOrigin: string -> string, url: Option<string>, allowed: Option<string>) {
    var origin := urlOrigin(if url.Some? then url.value else "");
    origin == "" || origin in A.Items(Split(if allowed.Some? then allowed.value else "", ','))
  }

  lemma OneOriginListedIff(urlOrigin: string -> string, url: string, origin: string)
    requires origin != "" && ',' !in origin && Bare(origin, Spaces())
    ensures OriginListed(urlOrigin, Some(url), Some(origin)) <==> urlOrigin(url) == "" || urlOrigin(url) == origin
  {
    A.ItemsOfOne(origin);
  }

  predicate Unquotable(s: string) { Bare(s, Only('"')) && Bare(s, Only('\'')) }

  // For a web app at scheme://host/path the check passes exactly if the script reads the same origin
  // off the URL, or none.
  lemma OriginAllowedIff(text: Spelling, urlOrigin: string -> string, a: Arguments, backend: seq<Setting>,
                         bot: seq<Setting>, scheme: string, host: string, path: string)
    requires Spelled(text) && backend == Backend(a) && bot == Bot(a)
    requires OneLineSettings(backend) && OneLineSettings(bot)
    requires a.webappUrl == scheme + "://" + host + path
    requires '/' !in scheme && '/' !in host && (path == "" || path[0] == '/')
    requires Unquotable(a.webappUrl) && Unquotable(scheme + "://" + host)
    requires ',' !in scheme && ',' !in host && Bare(scheme + "://" + host, Spaces())
    ensures OriginAllowed(text, urlOrigin, backend, bot) <==>
              urlOrigin(a.webappUrl) == "" || urlOrigin(a.webappUrl) == scheme + "://" + host
  {
    OriginOfUrl(scheme, host, path);
    OriginPlaces(a);
    PlacedOriginAllowedIff(text, urlOrigin, backend, bot, a.webappUrl, scheme + "://" + host);
  }

  lemma SeenUnquoted(text: Spelling, settings: seq<Setting>, i: nat, setting: Setting)
    requires Spelled(text) && OneLineSettings(settings) && At(settings, i, setting) && Unquotable(setting.value)
    ensures Get(Seen(text, settings), text(setting.key)) == Some(setting.value)
  {
    SeenValue(text, settings, i, setting);
    WithoutQuotesIff(setting.value);
  }

  lemma PlacedOriginAllowedIff(text: Spelling, urlOrigin: string -> string, backend: seq<Setting>, bot: seq<Setting>,
                               url: string, origin: string)
    requires Spelled(text) && OneLineSettings(backend) && OneLineSettings(bot)
    requires At(backend, 12, Setting(CORS_ALLOWED_ORIGINS, origin)) && At(bot, 3, Setting(TELEGRAM_WEBAPP_URL, url))
    requires Unquotable(url) && Unquotable(origin)
    requires origin != "" && ',' !in origin && Bare(origin, Spaces())
    ensures OriginAllowed(text, urlOrigin, backend, bot) <==> urlOrigin(url) == "" || urlOrigin(url) == origin
  {
    SeenUnquoted(text, bot, 3, Setting(TELEGRAM_WEBAPP_URL, url));
    SeenUnquoted(text, backend, 12, Setting(CORS_ALLOWED_ORIGINS, origin));
    OneOriginListedIff(urlOrigin, url, origin);
  }

  lemma OriginPlaces(a: Arguments)
    ensures At(Backend(a), 12, Setting(CORS_ALLOWED_ORIGINS, Origin(a.webappUrl)))
    ensures At(Bot(a), 3, Setting(TELEGRAM_WEBAPP_URL, a.webappUrl))
  {}

  // A written file comes back whole when its values are plain.
  lemma PlainFileComesBack(text: Spelling, settings: seq<Setting>)
    requires Spelled(text) && forall s: Setting | s in settings :: Plain(s.value)
    ensures Seen(text, settings) == MapOf(Written(text, settings))
  {
    var entries := Written(text, settings);
    forall e | e in entries ensures KeyOk(e.key) && Plain(e.value) {
      var j :| 0 <= j < |entries| && entries[j] == e;
      assert settings[j] in settings;
    }
    PlainComesBack(entries);
  }
}
