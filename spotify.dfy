/** The Spotify Web API client of spotify.ts: the request URL and bearer
    header, the 429 retry rule and the search query. The network is a
    sequence of replies handed to the client, one per fetch it issues. */
module SpotifyClient {
  import opened Js
  import opened Http

  const ApiBase := "https://api.spotify.com/v1"
  const SearchPath := "/search"
  const TooManyRequests := 429
  /** The Retry-After text used when a 429 reply carries no such header. */
  const DefaultRetryAfter := "100"

  /** The members of a RequestInit the client reads or forwards; None is a
      member the caller left out. */
  datatype RequestInit = RequestInit(headers: Option<seq<Entry>>, verb: Option<string>, body: Option<string>)

  /** No init argument at all: spreading undefined adds nothing. */
  const NoInit := RequestInit(None, None, None)

  /** One fetch call: the URL and the options object it is given. */
  datatype Fetch = Fetch(url: Url, headers: seq<Entry>, verb: Option<string>, body: Option<string>)

  /** A response as far as the client looks at it; retryAfter is the
      Retry-After header, None when it is absent. */
  datatype Reply = Reply(status: int, statusText: string, retryAfter: Option<string>)

  /** What the client writes to the console: "Retrying after ${delay}ms"
      (None is NaN) or the "Spotify fetch error:" line. */
  datatype LogLine = Retrying(delay: Option<int>) | FetchError(status: int, statusText: string)

  /** The request URL: the v1 base, the path, a question mark and the query,
      which is empty when no params are given. */
  function RequestUrl(path: string, params: Option<seq<Entry>>): (u: Url)
    ensures u.prefix == ApiBase + path + "?"
    ensures u.prefix[..|ApiBase|] == ApiBase && u.prefix[|ApiBase|..|u.prefix| - 1] == path
    ensures u.query == if params.Some? then params.value else []
  {
    var prefix := ApiBase + path + "?";
    assert prefix[..|ApiBase|] == ApiBase && prefix[|ApiBase|..|prefix| - 1] == path;
    Url(prefix, match params case None => [] case Some(p) => p)
  }

  /** The Authorization header value for a token. */
  function BearerHeader(token: string): string
  {
    "Bearer " + token
  }

  /** The token an Authorization header carries, if it is a bearer header. */
  function BearerToken(headers: seq<Entry>): (t: Option<string>)
    ensures t.Some? ==> Get(headers, "Authorization") == Some(BearerHeader(t.value))
    ensures var v := Get(headers, "Authorization");
            v.Some? && |v.value| >= 7 && v.value[..7] == "Bearer " ==> t == Some(v.value[7..])
  {
    match Get(headers, "Authorization")
    case None => None
    case Some(v) => if |v| >= 7 && v[..7] == "Bearer " then (assert v == v[..7] + v[7..]; Some(v[7..])) else None
  }

  /** The fetch one request issues: the bearer header for the token, which a
      caller's own headers replace wholesale, and the caller's method (verb)
      and body. */
  function FetchFor(token: string, path: string, params: Option<seq<Entry>>, init: RequestInit): (f: Fetch)
    ensures f.url == RequestUrl(path, params)
    ensures init.headers.Some? ==> f.headers == init.headers.value
    ensures init.headers.None? ==> f.headers == [Entry("Authorization", BearerHeader(token))]
    ensures f.verb == init.verb && f.body == init.body
  {
    match init.headers
    case Some(h) => Fetch(RequestUrl(path, params), h, init.verb, init.body)
    case None => Fetch(RequestUrl(path, params), [Entry("Authorization", BearerHeader(token))], init.verb, init.body)
  }

  /** Without caller headers the fetch carries the token as its bearer
      credential and no other header. */
  lemma FetchCarriesToken(token: string, path: string, params: Option<seq<Entry>>, init: RequestInit)
    requires init.headers.None?
    ensures |FetchFor(token, path, params, init).headers| == 1
    ensures BearerToken(FetchFor(token, path, params, init).headers) == Some(token)
  {
    var headers := FetchFor(token, path, params, init).headers;
    GetAt(headers, 0);
    assert BearerHeader(token)[..7] == "Bearer " && BearerHeader(token)[7..] == token;
  }

  /** The delay a 429 reply asks for: parseInt of Retry-After, or of "100"
      when it is absent; the source waits that many milliseconds. */
  function RetryDelay(reply: Reply): Option<int>
  {
    ParseInt(match reply.retryAfter case None => DefaultRetryAfter case Some(v) => v)
  }

  /** Without a Retry-After header the wait is 100. */
  lemma RetryDelayDefault(reply: Reply)
    requires reply.retryAfter.None?
    ensures RetryDelay(reply) == Some(100)
  {
    var d := DefaultRetryAfter;
    assert d[..2] == "10" && "10"[..1] == "1" && "1"[..0] == "";
    assert DigitsValue(d, 10) == 100;
    ParseDecimal(d);
    ParseUnsignedText(d);
  }

  /** A Retry-After header holding the decimal text of n asks for exactly n. */
  lemma RetryDelayOfHeader(reply: Reply, n: int)
    requires reply.retryAfter == Some(IntToString(n))
    ensures RetryDelay(reply) == Some(n)
  {
    ParseIntToString(n);
  }

  /** Response.ok */
  predicate IsOk(status: int)
  {
    200 <= status <= 299
  }

  predicate NotThrottled(reply: Reply)
  {
    reply.status != TooManyRequests
  }

  /** What request(path, params, init) does when fetch yields the replies in
      turn: with k the number of leading 429 replies, it fetches f k + 1
      times, logs one retry line per 429 and one error line if the final
      reply is not ok, and hands back that final reply. When every supplied
      reply is a 429 it has fetched once per reply and is still waiting,
      which is response None. */
  ghost predicate RetryRun(f: Fetch, replies: seq<Reply>, response: Option<Reply>, fetches: seq<Fetch>, log: seq<LogLine>)
  {
    var k := FirstWhere(replies, NotThrottled);
    && |fetches| == (if k < |replies| then k + 1 else k)
    && (forall j :: 0 <= j < |fetches| ==> fetches[j] == f)
    && |log| >= k
    && (forall j :: 0 <= j < k ==> log[j] == Retrying(RetryDelay(replies[j])))
    && if k < |replies| then
         && response == Some(replies[k])
         && log[k..] == if IsOk(replies[k].status) then [] else [FetchError(replies[k].status, replies[k].statusText)]
       else
         response == None && |log| == k
  }

  /** The state of request after i replies that were all 429s: one fetch of f
      and one retry line per reply. */
  ghost predicate Retried(f: Fetch, replies: seq<Reply>, i: int, fetches: seq<Fetch>, log: seq<LogLine>)
  {
    && 0 <= i <= |replies|
    && |fetches| == i && (forall j :: 0 <= j < i ==> fetches[j] == f)
    && (forall j :: 0 <= j < i ==> replies[j].status == TooManyRequests)
    && |log| == i && (forall j :: 0 <= j < i ==> log[j] == Retrying(RetryDelay(replies[j])))
  }

  /** Another 429 means one more fetch and one more retry line. */
  lemma RetriedStep(f: Fetch, replies: seq<Reply>, i: int, fetches: seq<Fetch>, log: seq<LogLine>)
    requires Retried(f, replies, i, fetches, log)
    requires i < |replies| && replies[i].status == TooManyRequests
    ensures Retried(f, replies, i + 1, fetches + [f], log + [Retrying(RetryDelay(replies[i]))])
  {
  }

  /** The first reply that is not a 429 ends the run: it is handed back, and
      logged when it is not ok. */
  lemma RetriedStops(f: Fetch, replies: seq<Reply>, i: int, fetches: seq<Fetch>, log: seq<LogLine>)
    requires Retried(f, replies, i, fetches, log)
    requires i < |replies| && replies[i].status != TooManyRequests
    ensures RetryRun(f, replies, Some(replies[i]), fetches + [f],
                     log + if IsOk(replies[i].status) then [] else [FetchError(replies[i].status, replies[i].statusText)])
  {
    assert FirstWhere(replies, NotThrottled) == i;
  }

  /** When every reply is a 429 the run is still waiting. */
  lemma RetriedAll(f: Fetch, replies: seq<Reply>, fetches: seq<Fetch>, log: seq<LogLine>)
    requires Retried(f, replies, |replies|, fetches, log)
    ensures RetryRun(f, replies, None, fetches, log)
  {
    assert FirstWhere(replies, NotThrottled) == |replies|;
  }

  /** A record query's terms: one "key:value" per entry, in entry order. */
  function Terms(entries: seq<Entry>): (terms: seq<string>)
    ensures |terms| == |entries|
    ensures forall i :: 0 <= i < |entries| ==> terms[i] == entries[i].key + ":" + entries[i].value
  {
    seq(|entries|, i requires 0 <= i < |entries| => entries[i].key + ":" + entries[i].value)
  }

  /** The query argument of search: a ready string or a record. */
  datatype Query = Text(text: string) | Fields(entries: seq<Entry>)

  /** The q parameter of a search: a string goes through unchanged, a record
      becomes its terms joined by single spaces. */
  function QueryString(query: Query): string
  {
    match query
    case Text(s) => s
    case Fields(entries) => Join(Terms(entries), " ")
  }

  /** An empty record gives the empty query. */
  lemma QueryStringOfEmptyRecord()
    ensures QueryString(Fields([])) == ""
  {
  }

  /** When no key or value holds a space, splitting the query on spaces gives
      back exactly the record's terms, in order. */
  lemma QueryTermsRecoverable(entries: seq<Entry>)
    requires |entries| >= 1
    requires forall i :: 0 <= i < |entries| ==> ' ' !in entries[i].key && ' ' !in entries[i].value
    ensures Split(QueryString(Fields(entries)), ' ') == Terms(entries)
  {
    var terms := Terms(entries);
    forall i | 0 <= i < |terms|
      ensures ' ' !in terms[i]
    {
      assert terms[i] == entries[i].key + ":" + entries[i].value;
    }
    assert [' '] + "" == " ";
    SplitJoin(terms, ' ', "");
    var r := Split(QueryString(Fields(entries)), ' ');
    assert |r| == |terms|;
    forall i | 0 <= i < |terms|
      ensures r[i] == terms[i]
    {
      if i > 0 {
        assert r[i] == "" + terms[i];
      }
    }
  }

  /** The parameters of a search, in the order the source writes them. */
  function SearchParams(kind: string, query: Query): (params: seq<Entry>)
    ensures |params| == 3
    ensures Get(params, "type") == Some(kind)
    ensures Get(params, "q") == Some(QueryString(query))
    ensures Get(params, "market") == Some("from_token")
  {
    var params := [Entry("type", kind), Entry("q", QueryString(query)), Entry("market", "from_token")];
    GetAt(params, 0); GetAt(params, 1); GetAt(params, 2);
    params
  }

  /** A string query is passed through as q unchanged. */
  lemma SearchPassesTextThrough(kind: string, text: string)
    ensures Get(SearchParams(kind, Text(text)), "q") == Some(text)
  {
  }

  class Spotify {
    /** Declared but never read: request writes the base URL out itself. */
    const baseUrl: string
    var token: string

    constructor()
      ensures baseUrl == ApiBase && token == ""
    {
      baseUrl := ApiBase;
      token := "";
    }

    /** init(token) */
    method Init(token: string)
      modifies this
      ensures this.token == token
    {
      this.token := token;
    }

    /** request(path, params, init), its recursive retry unrolled into a loop
        over the replies fetch yields. */
    method Request(path: string, params: Option<seq<Entry>>, init: RequestInit, replies: seq<Reply>)
      returns (response: Option<Reply>, fetches: seq<Fetch>, log: seq<LogLine>)
      ensures RetryRun(FetchFor(token, path, params, init), replies, response, fetches, log)
    {
      var f := FetchFor(token, path, params, init);
      response, fetches, log := None, [], [];
      var i := 0;
      while i < |replies|
        invariant Retried(f, replies, i, fetches, log)
      {
        var reply := replies[i];
        if reply.status == TooManyRequests {
          RetriedStep(f, replies, i, fetches, log);
          fetches := fetches + [f];
          log := log + [Retrying(RetryDelay(reply))];
          i := i + 1;
        } else {
          RetriedStops(f, replies, i, fetches, log);
          fetches := fetches + [f];
          if !IsOk(reply.status) {
            log := log + [FetchError(reply.status, reply.statusText)];
          }
          response := Some(reply);
          return;
        }
      }
      RetriedAll(f, replies, fetches, log);
    }

    /** search(type, query): a GET of /search with the search parameters. */
    method Search(kind: string, query: Query, replies: seq<Reply>)
      returns (response: Option<Reply>, fetches: seq<Fetch>, log: seq<LogLine>)
      ensures RetryRun(FetchFor(token, SearchPath, Some(SearchParams(kind, query)), NoInit), replies, response, fetches, log)
    {
      response, fetches, log := Request(SearchPath, Some(SearchParams(kind, query)), NoInit, replies);
    }
  }

  /** The number of fetches is one more than the number of leading 429s when
      a non-429 reply arrives, and the reply handed back is that first one. */
  lemma RetryCount(f: Fetch, replies: seq<Reply>, response: Option<Reply>, fetches: seq<Fetch>, log: seq<LogLine>, k: nat)
    requires RetryRun(f, replies, response, fetches, log)
    requires k < |replies| && replies[k].status != TooManyRequests
    requires forall j :: 0 <= j < k ==> replies[j].status == TooManyRequests
    ensures |fetches| == k + 1
    ensures response == Some(replies[k])
  {
    assert FirstWhere(replies, NotThrottled) == k;
  }
}
