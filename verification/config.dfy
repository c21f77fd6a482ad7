/** `APP_CONFIG`: the application configuration injected by token, its two
    predefined values and the factory that picks one. */
module Config {
  import opened Common

  datatype Features = Features(darkMode: bool, analytics: bool)

  datatype AppConfig = AppConfig(apiUrl: String, appName: String, version: String, features: Features)

  const DefaultAppConfig := AppConfig("http://localhost:3000/api", "Angular Demo", "1.0.0", Features(true, false))

  const TestAppConfig := AppConfig("http://test-api.example.com", "Angular Demo (Test)", "1.0.0-test", Features(false, false))

  const ProductionApiUrl: String := "https://api.production.com"

  /** `configFactory(isProd)`. */
  function ConfigFactory(isProd: bool): (r: AppConfig)
    ensures !isProd ==> r == DefaultAppConfig
    ensures isProd ==> r.apiUrl == ProductionApiUrl && r.features == Features(true, true)
    ensures r.appName == DefaultAppConfig.appName && r.version == DefaultAppConfig.version
  {
    if isProd then AppConfig(ProductionApiUrl, "Angular Demo", "1.0.0", Features(true, true))
    else DefaultAppConfig
  }

  /** Production differs from the default only in the API address and
      analytics; dark mode is on in both. */
  lemma ProductionDiffersFromDefault()
    ensures ConfigFactory(true) == DefaultAppConfig.(apiUrl := ProductionApiUrl,
                                                    features := DefaultAppConfig.features.(analytics := true))
    ensures ConfigFactory(true).features.darkMode && ConfigFactory(false).features.darkMode
    ensures !TestAppConfig.features.darkMode && !TestAppConfig.features.analytics
    ensures !DefaultAppConfig.features.analytics
  {
  }
}
