/**
 * The request strings the program builds before handing them to its HTTP
 * client: the fixed endpoint URLs, the retweets-lookup URL for a post ID,
 * and the `key:secret` text that is base64-encoded for Basic authentication.
 */
module Endpoints {
  import opened Wrappers
  import opened Decimal
  import opened Text

  const TwitterUrl: string := "https://api.twitter.com"
  const RetweetsUrl: string := TwitterUrl + "/1.1/statuses/retweets/"
  const RetweetsQuery: string := ".json?trim_user=true"

  /** The URL `getRetweets(id)` requests: `RetweetsUrl + strconv.Itoa(id) + ".json?trim_user=true"`. */
  function RetweetsLookupUrl(id: Int64): (url: string)
    ensures |url| > |RetweetsUrl| + |RetweetsQuery|
    ensures url[..|RetweetsUrl|] == RetweetsUrl
  {
    RetweetsUrl + Format(id) + RetweetsQuery
  }

  /** The post ID can be read back from the lookup URL, between the fixed prefix and query. */
  lemma LookupUrlNamesPost(id: Int64)
    ensures var url := RetweetsLookupUrl(id);
      |RetweetsUrl| + |RetweetsQuery| < |url| &&
      url[..|RetweetsUrl|] == RetweetsUrl &&
      url[|url| - |RetweetsQuery|..] == RetweetsQuery &&
      Atoi(url[|RetweetsUrl|..|url| - |RetweetsQuery|]) == Success(id)
  {
    var url := RetweetsLookupUrl(id);
    var f := Format(id);
    FormatIsOneLine(id);
    assert url[..|RetweetsUrl|] == RetweetsUrl;
    assert url[|url| - |RetweetsQuery|..] == RetweetsQuery;
    assert url[|RetweetsUrl|..|url| - |RetweetsQuery|] == f;
    AtoiFormat(id);
  }

  /** Different posts are looked up at different URLs. */
  lemma LookupUrlInjective(a: Int64, b: Int64)
    requires RetweetsLookupUrl(a) == RetweetsLookupUrl(b)
    ensures a == b
  {
    LookupUrlNamesPost(a);
    LookupUrlNamesPost(b);
  }

  /** The plain text `getEncodingCredentials` encodes: `API_KEY + ":" + SECRET_KEY`. */
  function BasicCredentials(key: string, secret: string): (c: string)
    ensures |c| == |key| + 1 + |secret| && c[|key|] == ':'
  {
    key + ":" + secret
  }

  /** A key without a colon is recovered, with the secret, by splitting at the first colon. */
  lemma CredentialsSplit(key: string, secret: string)
    requires forall j :: 0 <= j < |key| ==> key[j] != ':'
    ensures var c := BasicCredentials(key, secret);
      IndexOf(c, ':') == |key| && c[..|key|] == key && c[|key| + 1..] == secret
  {
    var c := BasicCredentials(key, secret);
    assert c[|key|] == ':';
    assert IndexOf(c, ':') == |key|;
    assert c[..|key|] == key;
    assert c[|key| + 1..] == secret;
  }
}
