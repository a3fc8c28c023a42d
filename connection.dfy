/**
 * The constructor arguments: the scheme prefix of the connection URL, the database name taken
 * from the URL path, and the optional timeout argument.
 */
module Connection {
  import opened Base

  const MongoScheme := "mongodb://"
  const MongoSrvScheme := "mongodb+srv://"

  /** The database used when the URL names none. */
  const DefaultDatabase := "casbin_rule"

  /** The collection the rules live in, in whichever database. */
  const CollectionName := "casbin_rule"

  /** The operation timeout used when the caller gives none: 30 seconds. */
  const DefaultTimeout: Duration := 30 * Second

  predicate HasMongoScheme(url: string)
  {
    MongoSrvScheme <= url || MongoScheme <= url
  }

  /**
   * NewAdapter's URL normalisation: a URL that already starts with "mongodb://" or
   * "mongodb+srv://" is kept as it is; any other gets "mongodb://" in front.
   */
  function NormalizeUrl(url: string): (r: string)
    ensures HasMongoScheme(r)
    ensures HasMongoScheme(url) ==> r == url
    ensures !HasMongoScheme(url) ==> r == MongoScheme + url
  {
    if !(MongoSrvScheme <= url) && !(MongoScheme <= url) then MongoScheme + url else url
  }

  /** Normalising twice is normalising once. */
  lemma NormalizeIdempotent(url: string)
    ensures NormalizeUrl(NormalizeUrl(url)) == NormalizeUrl(url)
  {
  }

  /** The URL the caller gave is always the tail of the normalised one. */
  lemma NormalizeKeepsUrl(url: string)
    ensures var r := NormalizeUrl(url); |url| <= |r| && r[|r| - |url|..] == url
  {
    var r := NormalizeUrl(url);
    if r != url {
      assert r[|MongoScheme|..] == url;
    }
  }

  /**
   * The database name from the path of the parsed URL: the path without its leading "/",
   * or "casbin_rule" when the path is empty.
   */
  function DatabaseName(path: string): (name: string)
    ensures path == "" ==> name == DefaultDatabase
    ensures path != "" ==> |name| == |path| - 1 && path == [path[0]] + name
  {
    if path != "" then path[1..] else DefaultDatabase
  }

  /** A URL path "/abc" names the database "abc"; a bare "/" names the empty database. */
  lemma DatabaseNameFromPath(db: string)
    ensures DatabaseName("/" + db) == db
    ensures DatabaseName("/") == ""
  {
  }

  /**
   * The timeout argument of the constructors: none gives the default, one is used as given,
   * more than one is refused.
   */
  function TimeoutFromArgs(timeout: seq<Duration>): (r: Result<Duration, AdapterError>)
    ensures |timeout| == 0 ==> r == Success(DefaultTimeout)
    ensures |timeout| == 1 ==> r == Success(timeout[0])
    ensures |timeout| > 1 <==> r == Failure(TooManyArguments)
  {
    if |timeout| == 1 then Success(timeout[0])
    else if |timeout| > 1 then Failure(TooManyArguments)
    else Success(DefaultTimeout)
  }
}
