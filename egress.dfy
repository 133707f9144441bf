/**
 * How a request leaves the machine (main.py): the `proxies` map handed to
 * `requests` for each network option, the pre-flight connectivity test and
 * its status string, and the optional rotating `User-Agent` header.
 */
module Egress {
  import opened Wrappers
  import opened Text

  const HttpProxyOption := "HTTP Proxy"
  const TorOption := "Tor Network"

  /** Tor Browser's SOCKS port, `TOR_SOCKS_PORT`. */
  const TorSocksPort := 9150
  const DefaultTorSocksIp := "127.0.0.1"

  const TorCheckUrl := "https://check.torproject.org/"
  const IpEchoUrl := "https://api.ipify.org?format=json"
  const TorConfirmation := "Congratulations. This browser is configured to use Tor."
  /** "Failed to connect to Tor. Check Tor Browser is running and properly configured.",
      spelled out around its two letters 's' so that proofs can find them. */
  const TorNotConfirmedHead := "Failed to connect to Tor. Check Tor Brow"
  const TorNotConfirmedTail := " running and properly configured."
  const TorNotConfirmed := TorNotConfirmedHead + (['s'] + ("er i" + (['s'] + TorNotConfirmedTail)))
  const ConnectionSuccessful := "Connection successful!"

  /** The URL scheme → proxy URL map `requests` takes as `proxies`. */
  type ProxyMap = map<string, string>

  /** The settings keys the egress code reads, each possibly unset. */
  datatype Settings = Settings(
    torSocksIp: Option<string>,
    torSocksPort: Option<int>,
    rotateUserAgents: Option<bool>)

  /** Both schemes sent through one proxy URL. */
  function BothSchemes(proxyUrl: string): (m: ProxyMap)
    ensures m.Keys == {"http", "https"}
    ensures m["http"] == proxyUrl && m["https"] == proxyUrl
  {
    map["http" := proxyUrl, "https" := proxyUrl]
  }

  /** `{'http': f'http://{address}', 'https': f'http://{address}'}`. */
  function HttpProxyMap(address: string): (m: ProxyMap)
    ensures m.Keys == {"http", "https"}
    ensures m["http"] == "http://" + address && m["https"] == "http://" + address
  {
    BothSchemes("http://" + address)
  }

  /** `{'http': f'socks5h://{ip}:{port}', 'https': ...}`. */
  function TorProxyMap(ip: string, port: int): (m: ProxyMap)
    ensures m.Keys == {"http", "https"}
    ensures m["http"] == "socks5h://" + ip + ":" + IntToString(port)
    ensures m["https"] == m["http"]
  {
    BothSchemes("socks5h://" + ip + ":" + IntToString(port))
  }

  /** The `proxies` map `test_connection` builds for a network option. */
  function ConnectionProxies(option: string, proxyAddress: string, torIp: string, torPort: int): ProxyMap
  {
    if option == HttpProxyOption then HttpProxyMap(proxyAddress)
    else if option == TorOption then TorProxyMap(torIp, torPort)
    else map[]
  }

  /** The connectivity test URL: the Tor check page for Tor, the IP echo service otherwise. */
  function TestUrl(option: string): string
  {
    if option == TorOption then TorCheckUrl else IpEchoUrl
  }

  /** The proxies map for each network option: HTTP proxy and Tor route both
      schemes through one proxy URL, every other option goes direct. */
  lemma ConnectionProxiesByOption(option: string, proxyAddress: string, torIp: string, torPort: int)
    ensures var m := ConnectionProxies(option, proxyAddress, torIp, torPort);
      && (option == HttpProxyOption ==> m.Keys == {"http", "https"} && m["http"] == m["https"] == "http://" + proxyAddress)
      && (option == TorOption ==>
            m.Keys == {"http", "https"} && m["http"] == m["https"] == "socks5h://" + torIp + ":" + IntToString(torPort))
      && (option != HttpProxyOption && option != TorOption ==> m == map[])
      && (m != map[] <==> option == HttpProxyOption || option == TorOption)
  {
    assert HttpProxyOption != TorOption;
  }

  /** What the `requests.get` probe of `test_connection` did. */
  datatype ProbeOutcome =
    | Responded(text: string)            // a response whose status passed `raise_for_status`
    | RequestFailed(message: string)     // a `RequestException` (network, timeout or HTTP status)
    | UnexpectedFailure(message: string) // any other exception

  /** `test_connection`: probe the test URL through the option's proxies and
      report the status string the caller inspects. */
  function TestConnection(option: string, proxyAddress: string, torIp: string, torPort: int,
                          probe: (string, ProxyMap) -> ProbeOutcome): string
  {
    match probe(TestUrl(option), ConnectionProxies(option, proxyAddress, torIp, torPort))
    case Responded(text) =>
      if option == TorOption && !Contains(text, TorConfirmation)
      then "Connection failed: " + TorNotConfirmed
      else ConnectionSuccessful
    case RequestFailed(message) => "Connection failed: " + message
    case UnexpectedFailure(message) => "Connection failed with an unexpected error: " + message
  }

  /** The check `start_scraping` applies to the status: `"successful" in status`. */
  predicate StatusAllowsScraping(status: string)
  {
    Contains(status, "successful")
  }

  /** The fixed parts of the failure messages have no letter 's'. */
  lemma TorHeadLacksS()
    ensures 's' !in TorNotConfirmedHead
  {
  }

  lemma TorTailLacksS()
    ensures 's' !in TorNotConfirmedTail
  {
  }

  lemma FailedPrefixLacksS()
    ensures 's' !in "Connection failed: "
  {
  }

  lemma UnexpectedPrefixLacksS()
    ensures 's' !in "Connection failed with an unexpected error: "
  {
  }

  /** The Tor failure message does not say "successful". */
  lemma TorNotConfirmedIsNotSuccess()
    ensures !Contains(TorNotConfirmed, "successful")
  {
    var t := "successful";
    TorHeadLacksS();
    TorTailLacksS();
    NotContainsWithoutFirst(TorNotConfirmedTail, t);
    NotContainsAfterChar('s', TorNotConfirmedTail, t);
    NotContainsAfterPrefix("er i", ['s'] + TorNotConfirmedTail, t);
    NotContainsAfterChar('s', "er i" + (['s'] + TorNotConfirmedTail), t);
    NotContainsAfterPrefix(TorNotConfirmedHead, ['s'] + ("er i" + (['s'] + TorNotConfirmedTail)), t);
  }

  lemma SuccessStatusSaysSuccessful()
    ensures Contains(ConnectionSuccessful, "successful")
  {
    assert OccursAt(ConnectionSuccessful, "successful", 11);
  }

  /** A failure status, a fixed prefix without 's' and then a message that does
      not say "successful", does not let scraping start. */
  lemma FailureStatus(prefix: string, message: string)
    requires 's' !in prefix && !Contains(message, "successful")
    ensures !StatusAllowsScraping(prefix + message)
  {
    NotContainsAfterPrefix(prefix, message, "successful");
  }

  /** The connectivity test lets scraping start exactly when the probe got a
      response and, for Tor, that response carries the Tor confirmation marker,
      provided the probe's own error messages do not say "successful". */
  lemma TestConnectionGate(option: string, proxyAddress: string, torIp: string, torPort: int,
                           probe: (string, ProxyMap) -> ProbeOutcome)
    requires var o := probe(TestUrl(option), ConnectionProxies(option, proxyAddress, torIp, torPort));
      !o.Responded? ==> !Contains(o.message, "successful")
    ensures var o := probe(TestUrl(option), ConnectionProxies(option, proxyAddress, torIp, torPort));
      var status := TestConnection(option, proxyAddress, torIp, torPort, probe);
      && (StatusAllowsScraping(status) <==> o.Responded? && (option == TorOption ==> Contains(o.text, TorConfirmation)))
      && (StatusAllowsScraping(status) ==> status == ConnectionSuccessful)
  {
    var o := probe(TestUrl(option), ConnectionProxies(option, proxyAddress, torIp, torPort));
    match o
    case Responded(text) =>
      if option == TorOption && !Contains(text, TorConfirmation) {
        TorNotConfirmedIsNotSuccess();
        FailedPrefixLacksS();
        FailureStatus("Connection failed: ", TorNotConfirmed);
      } else {
        SuccessStatusSaysSuccessful();
      }
    case RequestFailed(message) =>
      FailedPrefixLacksS();
      FailureStatus("Connection failed: ", message);
    case UnexpectedFailure(message) =>
      UnexpectedPrefixLacksS();
      FailureStatus("Connection failed with an unexpected error: ", message);
  }

  /** The gate reads only the status text: a probe that raised with a message
      that itself says "successful" (an echoed URL or proxy address, say) lets
      scraping start although nothing responded. */
  lemma FailedProbeSayingSuccessfulPasses(option: string, proxyAddress: string, torIp: string, torPort: int,
                                          probe: (string, ProxyMap) -> ProbeOutcome)
    requires var o := probe(TestUrl(option), ConnectionProxies(option, proxyAddress, torIp, torPort));
      !o.Responded? && Contains(o.message, "successful")
    ensures StatusAllowsScraping(TestConnection(option, proxyAddress, torIp, torPort, probe))
  {
    var o := probe(TestUrl(option), ConnectionProxies(option, proxyAddress, torIp, torPort));
    match o
    case RequestFailed(message) =>
      ContainsAfterPrefix("Connection failed: ", message, "successful");
    case UnexpectedFailure(message) =>
      ContainsAfterPrefix("Connection failed with an unexpected error: ", message, "successful");
  }

  /** The connectivity test probes the Tor check page exactly for the Tor option. */
  lemma TestUrlByOption(option: string)
    ensures TestUrl(option) == TorCheckUrl <==> option == TorOption
    ensures option != TorOption ==> TestUrl(option) == IpEchoUrl
  {
  }

  /** The fixed user agents of `get_random_user_agent`. */
  const UserAgents: seq<string> := [
    "Mozilla/5.0 (Windows NT 10.0; Win64; x64) AppleWebKit/537.36 (KHTML, like Gecko) Chrome/91.0.4472.124 Safari/537.36",
    "Mozilla/5.0 (X11; Linux x86_64) AppleWebKit/537.36 (KHTML, like Gecko) Chrome/92.0.4515.107 Safari/537.36",
    "Mozilla/5.0 (Windows NT 10.0; Win64; x64; rv:89.0) Gecko/20100101 Firefox/89.0",
    "Mozilla/5.0 (Macintosh; Intel Mac OS X 10_15_7) AppleWebKit/605.1.15 (KHTML, like Gecko) Version/14.1.1 Safari/605.1.15",
    "Mozilla/5.0 (iPad; CPU OS 14_6 like Mac OS X) AppleWebKit/605.1.15 (KHTML, like Gecko) Version/14.1 Mobile/15E148 Safari/604.1"
  ]

  /** `random.choice(user_agents)`, with the random draw supplied as `draw`. */
  function RandomUserAgent(draw: nat): (ua: string)
    ensures ua in UserAgents
  {
    UserAgents[draw % |UserAgents|]
  }

  /** The request headers of `ScrapeThread.run`: a `User-Agent` only when rotation is on. */
  function RequestHeaders(settings: Settings, draw: nat): (h: map<string, string>)
    ensures settings.rotateUserAgents == Some(true) ==> h.Keys == {"User-Agent"} && h["User-Agent"] in UserAgents
    ensures settings.rotateUserAgents != Some(true) ==> h == map[]
  {
    if settings.rotateUserAgents.GetOr(false) then map["User-Agent" := RandomUserAgent(draw)] else map[]
  }

  /** The Tor proxies map of `ScrapeThread.run`, with the settings' defaults. */
  function SettingsTorProxyMap(settings: Settings): (m: ProxyMap)
    ensures m == TorProxyMap(settings.torSocksIp.GetOr(DefaultTorSocksIp), settings.torSocksPort.GetOr(TorSocksPort))
    ensures settings.torSocksIp.None? && settings.torSocksPort.None? ==> m["http"] == "socks5h://127.0.0.1:9150"
  {
    DefaultTorProxy();
    TorProxyMap(settings.torSocksIp.GetOr(DefaultTorSocksIp), settings.torSocksPort.GetOr(TorSocksPort))
  }

  /** The Tor proxy on the default address and port. */
  lemma DefaultTorProxy()
    ensures TorProxyMap(DefaultTorSocksIp, TorSocksPort)["http"] == "socks5h://127.0.0.1:9150"
  {
    TorSocksPortText();
  }

  /** `str(TOR_SOCKS_PORT)`. */
  lemma TorSocksPortText()
    ensures IntToString(TorSocksPort) == "9150"
  {
    assert NatToString(9) == "9";
    assert NatToString(91) == "91";
    assert NatToString(915) == "915";
  }
}
