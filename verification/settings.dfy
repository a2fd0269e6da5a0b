/**
 The three settings the download reads, with the defaults that apply when the
 settings file does not mention them. The loaded settings file is a map from
 key to text.
 */
module Settings {

  type SettingsMap = map<string, string>

  /** Storage location, proxy mode and proxy address, under their keys in the
      settings file. */
  const OutputDirKey: string := "存储位置"
  const ProxyModeKey: string := "代理模式"
  const ProxyAddressKey: string := "代理地址"

  const DefaultOutputDir: string := "YT"
  const DefaultProxyMode: string := "auto"
  const DefaultProxyAddress: string := ""

  /** The values one download works with. */
  datatype Config = Config(outputDir: string, proxyMode: string, proxyAddress: string)

  /** Python's `settings.get(key, default)`. */
  function Get(settings: SettingsMap, key: string, default: string): (v: string)
    ensures key in settings ==> v == settings[key]
    ensures key !in settings ==> v == default
  {
    if key in settings then settings[key] else default
  }

  /** Reads the three settings, each falling back to its own default. */
  function Resolve(settings: SettingsMap): (c: Config)
    ensures OutputDirKey in settings ==> c.outputDir == settings[OutputDirKey]
    ensures OutputDirKey !in settings ==> c.outputDir == "YT"
    ensures ProxyModeKey in settings ==> c.proxyMode == settings[ProxyModeKey]
    ensures ProxyModeKey !in settings ==> c.proxyMode == "auto"
    ensures ProxyAddressKey in settings ==> c.proxyAddress == settings[ProxyAddressKey]
    ensures ProxyAddressKey !in settings ==> c.proxyAddress == ""
  {
    Config(
      Get(settings, OutputDirKey, DefaultOutputDir),
      Get(settings, ProxyModeKey, DefaultProxyMode),
      Get(settings, ProxyAddressKey, DefaultProxyAddress))
  }

  /** Only the three keys matter: other entries of the settings file do not
      change what a download does. */
  lemma ResolveIgnoresOtherKeys(settings: SettingsMap, key: string, value: string)
    requires key != OutputDirKey && key != ProxyModeKey && key != ProxyAddressKey
    ensures Resolve(settings[key := value]) == Resolve(settings)
  {
  }
}
