/**
 * The chatbot client's WebSocket address (client/utils.go): the server's
 * base URL mapped to its "/ws" endpoint by scheme. URL parsing is done by
 * Go's net/url, so the parsed scheme and host (or the parse error) are the
 * input.
 */
module ClientUtils {
  import opened Common

  /** What url.Parse made of the base URL. */
  datatype ParsedURL = Parsed(scheme: string, host: string) | ParseError(error: string)

  const ErrUnsupportedScheme := "unsupported URL scheme"

  /**
   * WebSocketURL: https becomes wss://host/ws and http becomes ws://host/ws;
   * ws and wss are written "scheme//host/ws", without a colon after the
   * scheme; any other scheme, and a parse error, is an error.
   */
  function WebSocketURL(url: ParsedURL): (r: Result<string>)
    ensures url.ParseError? ==> r == Err(url.error)
    ensures url.Parsed? ==> (r.Ok? <==> url.scheme in {"https", "http", "ws", "wss"})
    ensures url.Parsed? && url.scheme !in {"https", "http", "ws", "wss"} ==> r == Err(ErrUnsupportedScheme)
    ensures url.Parsed? && url.scheme == "https" ==> r == Ok("wss://" + url.host + "/ws")
    ensures url.Parsed? && url.scheme == "http" ==> r == Ok("ws://" + url.host + "/ws")
    ensures url.Parsed? && url.scheme == "ws" ==> r == Ok("ws//" + url.host + "/ws")
    ensures url.Parsed? && url.scheme == "wss" ==> r == Ok("wss//" + url.host + "/ws")
  {
    match url
    case ParseError(e) => Err(e)
    case Parsed(scheme, host) =>
      if scheme == "https" then Ok("wss://" + host + "/ws")
      else if scheme == "http" then Ok("ws://" + host + "/ws")
      else if scheme == "ws" || scheme == "wss" then
        assert scheme + "//" + host + "/ws" == scheme + ("//" + host + "/ws");
        assert "ws" + ("//" + host + "/ws") == "ws//" + host + "/ws";
        assert "wss" + ("//" + host + "/ws") == "wss//" + host + "/ws";
        Ok(scheme + "//" + host + "/ws")
      else Err(ErrUnsupportedScheme)
  }

  /**
   * Every address ends with the host and "/ws"; the secure schemes give a
   * "wss" address and the plain ones a "ws" address that is not "wss".
   */
  lemma WebSocketURLShape(url: ParsedURL)
    ensures var r := WebSocketURL(url);
            && (r.Ok? ==> IsSuffix(url.host + "/ws", r.value))
            && (r.Ok? && url.scheme in {"https", "wss"} ==> IsPrefix("wss", r.value))
            && (r.Ok? && url.scheme in {"http", "ws"} ==> IsPrefix("ws", r.value) && !IsPrefix("wss", r.value))
  {
    if url.Parsed? {
      if url.scheme == "https" {
        Framed("wss://", url.host, "wss");
      } else if url.scheme == "http" {
        Framed("ws://", url.host, "ws");
      } else if url.scheme == "ws" {
        Framed("ws//", url.host, "ws");
      } else if url.scheme == "wss" {
        Framed("wss//", url.host, "wss");
      }
    }
  }

  /** An address `p + host + "/ws"` starts with every prefix of `p` and ends with the host and "/ws". */
  lemma Framed(p: string, host: string, q: string)
    requires IsPrefix(q, p)
    ensures IsPrefix(q, p + host + "/ws") && IsSuffix(host + "/ws", p + host + "/ws")
    ensures |p| > 2 && p[2] != 's' ==> !IsPrefix("wss", p + host + "/ws")
  {
    var a := p + host + "/ws";
    assert a == p + (host + "/ws");
    assert a[..|q|] == p[..|q|];
    if |p| > 2 {
      assert a[2] == p[2];
    }
  }

  /** The secure schemes agree on "wss" but only https gets the "://" separator. */
  lemma SchemeSeparators(host: string)
    ensures WebSocketURL(Parsed("https", host)) == Ok("wss://" + host + "/ws")
    ensures WebSocketURL(Parsed("wss", host)) == Ok("wss//" + host + "/ws")
    ensures WebSocketURL(Parsed("https", host)) != WebSocketURL(Parsed("wss", host))
  {
    assert "wss" != "https" && "wss" != "http" && "wss" != "ws";
    assert "wss" + "//" == "wss//";
    assert ("wss://" + host + "/ws")[3] != ("wss//" + host + "/ws")[3];
  }
}
