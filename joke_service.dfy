/** The joke service: choose the request URL for a category, run one request
    through the network, and turn whatever comes back into a sentence. */
module JokeService {
  import opened Text
  import opened Jokes

  /** The request for the wildcard category, written out in full. */
  const AnyUrl := "https://v2.jokeapi.dev/joke/Any?lang=en&format=txt&type=single"
  /** The endpoint every request starts with; the category name follows it. */
  const Endpoint := "https://v2.jokeapi.dev/joke/"
  /** The fixed query: English, plain text, single-part jokes. */
  const Query := "?lang=en&format=txt&type=single"

  /** The path segment requested for a category string: the wildcard `Any`
      when the string mentions "All", the string itself otherwise. */
  function PathSegment(category: string): string
  {
    if Contains(category, "All") then "Any" else category
  }

  /** Reference definition of the request URL: endpoint, segment, query. */
  function RequestUrl(category: string): string
  {
    Endpoint + PathSegment(category) + Query
  }

  newtype byte = x: int | 0 <= x < 256

  /** What the transport hands back for one GET: a body, or an error
      carrying its description. */
  datatype Transfer = Received(body: seq<byte>) | TransportFailed(description: string)

  /** The outside world as seen by one request: the session call, the UTF-8
      conversion of the body, and the description of the error thrown when
      that conversion fails. */
  datatype Network = Network(
    transport: string -> Transfer,
    utf8: seq<byte> -> Option<string>,
    conversionError: string)

  /** The outcome of `obtainJokeFromAPI`: the response text, or a thrown
      error represented by its description. */
  datatype Outcome = Response(text: string) | Thrown(description: string)

  /** What the network produces for a GET of `url`. */
  function Fetch(url: string, net: Network): Outcome
  {
    match net.transport(url)
    case TransportFailed(d) => Thrown(d)
    case Received(body) =>
      match net.utf8(body)
      case None => Thrown(net.conversionError)
      case Some(t) => Response(t)
  }

  /** The text a caught outcome is displayed as. */
  function Display(o: Outcome): string
  {
    match o
    case Response(t) => t
    case Thrown(d) => d
  }

  /** The wildcard URL is the general shape with `Any` as its segment, so
      both branches of the URL selection share endpoint and query. */
  lemma AnyUrlShape()
    ensures AnyUrl == Endpoint + "Any" + Query
  {
    var assembled := Endpoint + "Any" + Query;
    assert |AnyUrl| == |assembled| == 62;
    forall i | 0 <= i < 62
      ensures AnyUrl[i] == assembled[i]
    {
      if i < 28 {
        assert assembled[i] == Endpoint[i];
      } else if i < 31 {
        assert assembled[i] == "Any"[i - 28];
      } else {
        assert assembled[i] == Query[i - 31];
      }
    }
  }

  /** Builds the request URL the way the service does: start from the
      wildcard URL and replace it when the category does not mention "All". */
  method SelectUrl(category: string) returns (url: string)
    ensures url == RequestUrl(category)
    ensures Contains(category, "All") ==> url == AnyUrl
    ensures !Contains(category, "All") ==> url == Endpoint + category + Query
  {
    url := AnyUrl;
    if !Contains(category, "All") {
      url := Endpoint + category + Query;
    }
    AnyUrlShape();
  }

  /** One request: select the URL, fetch it, convert the body to text.
      A transport error or a body that is not UTF-8 comes back as `Thrown`. */
  method ObtainJokeFromApi(category: string, net: Network) returns (r: Outcome)
    ensures r == Fetch(RequestUrl(category), net)
  {
    var url := SelectUrl(category);
    var transfer := net.transport(url);
    if transfer.TransportFailed? {
      return Thrown(transfer.description);
    }
    var decoded := net.utf8(transfer.body);
    if decoded.None? {
      return Thrown(net.conversionError);
    }
    r := Response(decoded.value);
  }

  /** A sentence for `category`, whatever happens on the network: the
      response text on success, the error's description on failure. */
  method GetJokeSentence(id: Id, category: Category, net: Network) returns (s: JokeSentence)
    ensures s.id == id
    ensures s.content == Display(Fetch(RequestUrl(Title(category)), net))
  {
    var o := ObtainJokeFromApi(Title(category), net);
    s := JokeSentence(id, Display(o));
  }

  /** A body that transfers and decodes is displayed verbatim; a transport
      error is displayed as its own description; a body that does not
      decode is displayed as the conversion error's description. */
  lemma DisplayedContent(url: string, net: Network)
    ensures var t := net.transport(url);
      && (t.Received? && net.utf8(t.body).Some? ==> Display(Fetch(url, net)) == net.utf8(t.body).value)
      && (t.TransportFailed? ==> Display(Fetch(url, net)) == t.description)
      && (t.Received? && net.utf8(t.body).None? ==> Display(Fetch(url, net)) == net.conversionError)
  {
  }

  /** The wildcard category is requested with the wildcard URL. */
  lemma AllUsesAnyUrl()
    ensures RequestUrl(Title(All)) == AnyUrl
  {
    TitleContainsAllIff(All);
    AnyUrlShape();
  }

  /** The segment requested for a category is `Any` exactly for `All`, and
      the category's own title otherwise. */
  lemma CategorySegment(c: Category)
    ensures PathSegment(Title(c)) == (if c == All then "Any" else Title(c))
    ensures PathSegment(Title(c)) == "Any" <==> c == All
  {
    TitleContainsAllIff(c);
  }

  /** Every category's request ends in the same fixed query, begins with the
      same endpoint, and carries its segment in between. */
  lemma RequestShape(c: Category)
    ensures var url := RequestUrl(Title(c));
      && url[..|Endpoint|] == Endpoint
      && url[|url| - |Query|..] == Query
      && url[|Endpoint|..|url| - |Query|] == (if c == All then "Any" else Title(c))
  {
    CategorySegment(c);
  }

  /** Different categories are requested at different URLs. */
  lemma RequestUrlInjective(c: Category, d: Category)
    ensures RequestUrl(Title(c)) == RequestUrl(Title(d)) ==> c == d
  {
    if RequestUrl(Title(c)) == RequestUrl(Title(d)) {
      RequestShape(c);
      RequestShape(d);
      var sc := if c == All then "Any" else Title(c);
      var sd := if d == All then "Any" else Title(d);
      assert sc == sd;
      TitleInjective(c, d);
    }
  }
}
