/**
 * The client address the server records for a request
 * (pkg/util/ip_address.go). Request headers are a map from header name, in
 * Go's canonical form ("X-Real-Ip"), to value; the host/port split of the remote address is outside the
 * model and comes in as its result (None when it fails).
 */
module IPAddress {
  import opened Common

  /** http.Header.Get: the header's value, or "" when absent. */
  function Header(headers: map<string, string>, name: string): string {
    if name in headers then headers[name] else ""
  }

  /** strings.SplitN(s, ",", 2)[0]: the text before the first comma, or all of it. */
  function BeforeComma(s: string): (r: string)
    ensures IsPrefix(r, s) && ',' !in r
    ensures r == s || s[|r|] == ','
  {
    if |s| == 0 || s[0] == ',' then ""
    else
      var rest := BeforeComma(s[1..]);
      assert s == [s[0]] + s[1..];
      [s[0]] + rest
  }

  /**
   * IPAddress: behind a trusted proxy, a non-empty X-Real-IP and then the
   * first entry of a non-empty X-Forwarded-For; otherwise the host part of
   * the remote address, or the whole remote address when it cannot be split.
   */
  function Address(useXForwardedFor: bool, headers: map<string, string>, remoteAddr: string, host: Option<string>)
    : (r: string)
    ensures useXForwardedFor && Header(headers, "X-Real-Ip") != "" ==> r == Header(headers, "X-Real-Ip")
    ensures useXForwardedFor && Header(headers, "X-Real-Ip") == "" && Header(headers, "X-Forwarded-For") != "" ==>
              IsPrefix(r, Header(headers, "X-Forwarded-For")) && ',' !in r
              && (r == Header(headers, "X-Forwarded-For") || Header(headers, "X-Forwarded-For")[|r|] == ',')
    ensures !useXForwardedFor || (Header(headers, "X-Real-Ip") == "" && Header(headers, "X-Forwarded-For") == "") ==>
              r == (if host.Some? then host.value else remoteAddr)
  {
    var realIP := Header(headers, "X-Real-Ip");
    var xff := Header(headers, "X-Forwarded-For");
    if useXForwardedFor && realIP != "" then realIP
    else if useXForwardedFor && xff != "" then BeforeComma(xff)
    else if host.Some? then host.value
    else remoteAddr
  }

  /** With the proxy setting off, the headers are never consulted. */
  lemma HeadersIgnored(a: map<string, string>, b: map<string, string>, remoteAddr: string, host: Option<string>)
    ensures Address(false, a, remoteAddr, host) == Address(false, b, remoteAddr, host)
  {
  }

  /** A proxy chain "client, proxy1, proxy2" gives the client, the first entry. */
  lemma {:induction false} FirstForwarded(client: string, proxies: string)
    requires ',' !in client
    ensures BeforeComma(client + "," + proxies) == client
    decreases |client|
  {
    var s := client + "," + proxies;
    if |client| > 0 {
      assert s[1..] == client[1..] + "," + proxies;
      FirstForwarded(client[1..], proxies);
      assert client == [client[0]] + client[1..];
    } else {
      assert s[0] == ',';
    }
  }

  /** Without a comma the whole header is the address. */
  lemma {:induction false} SingleForwarded(xff: string)
    requires ',' !in xff
    ensures BeforeComma(xff) == xff
    decreases |xff|
  {
    if |xff| > 0 {
      SingleForwarded(xff[1..]);
      assert xff == [xff[0]] + xff[1..];
    }
  }
}
