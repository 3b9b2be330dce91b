/**
  `parse_url`: turns a platefile URL `pf://[host[:port]/]exchange/name` into
  the transport host and port, the exchange (routing key) and the platefile
  name. Every malformed shape is an ArgumentErr; a port that is not an
  integer is the error lexical_cast raises.
 */
module PlateUrl {
  import opened Wrappers
  import opened Strings

  datatype Endpoint = Endpoint(hostname: string, port: int, exchange: string, platefileName: string)

  /** Which of the three ArgumentErr throws in parse_url was taken. */
  datatype ArgumentKind = NotPlatefileUrl | BadHostAndPort | BadSegmentCount

  datatype UrlError =
    | ArgumentErr(kind: ArgumentKind, url: string)
    | BadLexicalCast(text: string)

  const Scheme: string := "pf://"
  const DefaultHost: string := "localhost"
  /** The standard RabbitMQ port. */
  const DefaultPort: int := 5672

  /** `url.find("pf://") == 0`: the first occurrence of the scheme is at the start. */
  predicate HasScheme(url: string): (b: bool)
    ensures b <==> Scheme <= url
  {
    |Scheme| <= |url| && url[..|Scheme|] == Scheme
  }

  function ParseUrl(url: string): (r: Result<Endpoint, UrlError>)
    ensures r == Failure(ArgumentErr(NotPlatefileUrl, url)) <==> !HasScheme(url)
    ensures r.Success? ==> '/' !in r.value.exchange && '/' !in r.value.platefileName
    ensures r.Success? ==> '/' !in r.value.hostname && ':' !in r.value.hostname
    ensures r.Success? ==> IntMin <= r.value.port <= IntMax
  {
    if !HasScheme(url) then Failure(ArgumentErr(NotPlatefileUrl, url))
    else
      var segments := Split(url[|Scheme|..], '/');
      if |segments| == 2 then
        Success(Endpoint(DefaultHost, DefaultPort, segments[0], segments[1]))
      else if |segments| == 3 then
        var hostPort := Split(segments[0], ':');
        SplitKeepsAbsent(segments[0], ':', '/');
        if |hostPort| == 1 then
          Success(Endpoint(hostPort[0], DefaultPort, segments[1], segments[2]))
        else if |hostPort| == 2 then
          match LexicalCastInt(hostPort[1])
          case Some(port) => Success(Endpoint(hostPort[0], port, segments[1], segments[2]))
          case None => Failure(BadLexicalCast(hostPort[1]))
        else
          Failure(ArgumentErr(BadHostAndPort, url))
      else
        Failure(ArgumentErr(BadSegmentCount, url))
  }

  /** The URL the three-segment form writes for an endpoint. */
  function FormatUrl(e: Endpoint): string
  {
    Scheme + e.hostname + ":" + FormatInt(e.port) + "/" + e.exchange + "/" + e.platefileName
  }

  lemma JoinThree(a: string, b: string, c: string)
    ensures Join([a, b, c], '/') == a + "/" + b + "/" + c
  {
    assert [a, b, c][1..] == [b, c];
    assert Join([b, c], '/') == b + "/" + c;
  }

  lemma SchemeTail(tail: string)
    ensures HasScheme(Scheme + tail) && (Scheme + tail)[|Scheme|..] == tail
  {
  }

  /** `pf://exchange/name`: default host and port, the two segments as given. */
  lemma ParseUrlDefaultHost(exchange: string, name: string)
    requires '/' !in exchange && '/' !in name
    ensures ParseUrl(Scheme + exchange + "/" + name)
         == Success(Endpoint("localhost", 5672, exchange, name))
  {
    var tail := exchange + "/" + name;
    assert Scheme + exchange + "/" + name == Scheme + tail;
    SchemeTail(tail);
    assert Join([exchange, name], '/') == tail;
    SplitJoin([exchange, name], '/');
  }

  /** `pf://host/exchange/name` with no ':' in host: that host, the default port. */
  lemma ParseUrlHostOnly(host: string, exchange: string, name: string)
    requires '/' !in host && '/' !in exchange && '/' !in name
    requires ':' !in host
    ensures ParseUrl(Scheme + host + "/" + exchange + "/" + name)
         == Success(Endpoint(host, 5672, exchange, name))
  {
    var tail := host + "/" + exchange + "/" + name;
    assert Scheme + host + "/" + exchange + "/" + name == Scheme + tail;
    SchemeTail(tail);
    JoinThree(host, exchange, name);
    SplitJoin([host, exchange, name], '/');
    SplitNoSeparator(host, ':');
  }

  /** `pf://host:port/exchange/name`: the port is whatever lexical_cast makes of its text. */
  lemma ParseUrlHostPort(host: string, portText: string, exchange: string, name: string)
    requires '/' !in host && '/' !in portText && '/' !in exchange && '/' !in name
    requires ':' !in host && ':' !in portText
    ensures ParseUrl(Scheme + host + ":" + portText + "/" + exchange + "/" + name)
         == match LexicalCastInt(portText)
            case Some(port) => Success(Endpoint(host, port, exchange, name))
            case None => Failure(BadLexicalCast(portText))
  {
    var hostSegment := host + ":" + portText;
    var tail := hostSegment + "/" + exchange + "/" + name;
    assert Scheme + host + ":" + portText + "/" + exchange + "/" + name == Scheme + tail;
    SchemeTail(tail);
    assert '/' !in hostSegment;
    JoinThree(hostSegment, exchange, name);
    SplitJoin([hostSegment, exchange, name], '/');
    assert Join([host, portText], ':') == hostSegment;
    SplitJoin([host, portText], ':');
  }

  /** A host segment with two or more ':' is rejected outright. */
  lemma ParseUrlTooManyColons(hostSegment: string, exchange: string, name: string)
    requires '/' !in hostSegment && '/' !in exchange && '/' !in name
    requires Count(hostSegment, ':') >= 2
    ensures var url := Scheme + hostSegment + "/" + exchange + "/" + name;
            ParseUrl(url) == Failure(ArgumentErr(BadHostAndPort, url))
  {
    var tail := hostSegment + "/" + exchange + "/" + name;
    assert Scheme + hostSegment + "/" + exchange + "/" + name == Scheme + tail;
    SchemeTail(tail);
    JoinThree(hostSegment, exchange, name);
    SplitJoin([hostSegment, exchange, name], '/');
    SplitLength(hostSegment, ':');
  }

  /**
    After the scheme, exactly one or two '/' are accepted; any other number
    of segments is the segment-count ArgumentErr, and only that.
   */
  lemma ParseUrlSegmentCount(url: string)
    requires HasScheme(url)
    ensures ParseUrl(url) == Failure(ArgumentErr(BadSegmentCount, url))
        <==> Count(url[|Scheme|..], '/') != 1 && Count(url[|Scheme|..], '/') != 2
  {
    SplitLength(url[|Scheme|..], '/');
  }

  /** Round trip: a clean endpoint written in three-segment form parses back to itself. */
  lemma ParseFormatUrl(e: Endpoint)
    requires '/' !in e.hostname && ':' !in e.hostname
    requires '/' !in e.exchange && '/' !in e.platefileName
    requires IntMin <= e.port <= IntMax
    ensures ParseUrl(FormatUrl(e)) == Success(e)
  {
    var portText := FormatInt(e.port);
    assert AllDigits(FormatNat(if e.port < 0 then -e.port else e.port));
    assert '/' !in portText && ':' !in portText by {
      if e.port < 0 {
        assert portText == "-" + FormatNat(-e.port);
        forall i | 0 <= i < |portText| ensures portText[i] != '/' && portText[i] != ':' {
          if i > 0 { assert portText[i] == FormatNat(-e.port)[i - 1]; }
        }
      }
    }
    ParseUrlHostPort(e.hostname, portText, e.exchange, e.platefileName);
    LexicalCastFormatInt(e.port);
  }
}
