/**
 * Resolver dispatch (getDownloadLinks): turns one collected link into the
 * map from direct URLs to suggested filenames. Site resolvers are tried in a
 * fixed priority order and the first that produces links wins; emoji CDN
 * links are dropped; otherwise the query string is stripped and dispatch runs
 * once more, and failing that the link stands for itself.
 */
module ResolverDispatch {
  import opened Wrappers
  import opened Text

  /** What a site resolver returns: an error, or a map from URL to filename. */
  datatype Fetched = FetchError(err: string) | Fetched(links: map<string, string>)

  /** One entry of the priority list: the site's URL pattern and its resolver.
      A pattern that also depends on configuration (the Google Drive entries
      apply only when credentials are set) folds that test into `matches`. */
  datatype Resolver = Resolver(matches: string -> bool, resolve: string -> Fetched)

  /** The collaborators of dispatch: the priority list, url.Parse followed by
      clearing RawQuery and re-serialising (None when parsing fails), and
      trimDownloadedLinks, which drops links the channel has already stored. */
  datatype Dispatcher = Dispatcher(
    resolvers: seq<Resolver>,
    stripQuery: string -> Option<string>,
    trimDownloaded: (map<string, string>, string) -> map<string, string>)

  const EmojiCdnPrefix := "https://cdn.discordapp.com/emojis/"

  /** How many times dispatch re-runs on the query-less URL. */
  const QueryStripHops: nat := 1

  /** A resolver wins on `url` when its pattern matches and it returns links. */
  predicate Wins(r: Resolver, url: string) {
    r.matches(url) && r.resolve(url).Fetched? && |r.resolve(url).links| > 0
  }

  /** The first resolver at or after `from` that wins on `url`; `|rs|` if none does. */
  function FirstWinner(rs: seq<Resolver>, url: string, from: nat): (k: nat)
    requires from <= |rs|
    ensures from <= k <= |rs|
    ensures k < |rs| ==> Wins(rs[k], url)
    ensures forall j :: from <= j < k ==> !Wins(rs[j], url)
    decreases |rs| - from
  {
    if from == |rs| then |rs|
    else if Wins(rs[from], url) then from
    else FirstWinner(rs, url, from + 1)
  }

  /** getDownloadLinks with at most `hops` re-runs on a query-less URL. Whatever
      it returns has been through the already-downloaded filter, except the empty
      result for an emoji link no resolver claims. */
  function DownloadLinks(d: Dispatcher, url: string, channelID: string, hops: nat): (r: map<string, string>)
    ensures FirstWinner(d.resolvers, url, 0) == |d.resolvers| && HasPrefix(url, EmojiCdnPrefix) ==> r == map[]
    ensures !(FirstWinner(d.resolvers, url, 0) == |d.resolvers| && HasPrefix(url, EmojiCdnPrefix))
            ==> exists m :: r == d.trimDownloaded(m, channelID)
    decreases hops
  {
    var k := FirstWinner(d.resolvers, url, 0);
    if k < |d.resolvers| then
      d.trimDownloaded(d.resolvers[k].resolve(url).links, channelID)
    else if HasPrefix(url, EmojiCdnPrefix) then
      map[]
    else if d.stripQuery(url).Some? && d.stripQuery(url).value != url && hops > 0 then
      d.trimDownloaded(DownloadLinks(d, d.stripQuery(url).value, channelID, hops - 1), channelID)
    else
      d.trimDownloaded(map[url := ""], channelID)
  }

  function GetDownloadLinks(d: Dispatcher, url: string, channelID: string): map<string, string> {
    DownloadLinks(d, url, channelID, QueryStripHops)
  }

  /** The first resolver that wins decides the result, whatever follows it in the
      list and whatever the URL looks like. */
  lemma FirstWinnerDecides(d: Dispatcher, url: string, channelID: string, hops: nat, k: nat)
    requires k < |d.resolvers| && Wins(d.resolvers[k], url)
    requires forall j :: 0 <= j < k ==> !Wins(d.resolvers[j], url)
    ensures DownloadLinks(d, url, channelID, hops)
         == d.trimDownloaded(d.resolvers[k].resolve(url).links, channelID)
  {
  }

  /** When no resolver wins, an emoji CDN link yields nothing at all. */
  lemma EmojiLinksSuppressed(d: Dispatcher, url: string, channelID: string, hops: nat)
    requires forall j :: 0 <= j < |d.resolvers| ==> !Wins(d.resolvers[j], url)
    requires HasPrefix(url, EmojiCdnPrefix)
    ensures DownloadLinks(d, url, channelID, hops) == map[]
  {
    assert FirstWinner(d.resolvers, url, 0) == |d.resolvers|;
  }

  /** When no resolver wins and stripping the query changes nothing (or the URL
      does not parse), the link falls back to itself with no filename. */
  lemma FallbackToItself(d: Dispatcher, url: string, channelID: string, hops: nat)
    requires forall j :: 0 <= j < |d.resolvers| ==> !Wins(d.resolvers[j], url)
    requires !HasPrefix(url, EmojiCdnPrefix)
    requires d.stripQuery(url).None? || d.stripQuery(url).value == url
    ensures DownloadLinks(d, url, channelID, hops) == d.trimDownloaded(map[url := ""], channelID)
  {
    assert FirstWinner(d.resolvers, url, 0) == |d.resolvers|;
  }

  /** When no resolver wins on a non-emoji link whose query can be stripped,
      dispatch re-runs on the query-less URL and filters that result once more. */
  lemma QueryStrippedRerun(d: Dispatcher, url: string, u: string, channelID: string, hops: nat)
    requires forall j :: 0 <= j < |d.resolvers| ==> !Wins(d.resolvers[j], url)
    requires !HasPrefix(url, EmojiCdnPrefix)
    requires d.stripQuery(url) == Some(u) && u != url
    requires hops > 0
    ensures DownloadLinks(d, url, channelID, hops)
         == d.trimDownloaded(DownloadLinks(d, u, channelID, hops - 1), channelID)
  {
    assert FirstWinner(d.resolvers, url, 0) == |d.resolvers|;
  }

  /** Stripping the query is idempotent at `u`. */
  predicate StripIdempotentAt(d: Dispatcher, u: string) {
    d.stripQuery(u).Some? ==> d.stripQuery(d.stripQuery(u).value) == d.stripQuery(u)
  }

  /** At a query-less URL dispatch does not recurse, so the budget is irrelevant. */
  lemma {:induction false} NoRecursionAtFixpoint(d: Dispatcher, url: string, channelID: string, hops: nat)
    requires d.stripQuery(url) == Some(url)
    ensures DownloadLinks(d, url, channelID, hops) == DownloadLinks(d, url, channelID, 0)
  {
  }

  /** One re-run on the query-less URL is all the source's unbounded recursion can
      ever take: with idempotent query stripping, any larger budget gives the same
      links as the bound the model uses. */
  lemma {:induction false} OneHopSuffices(d: Dispatcher, url: string, channelID: string, hops: nat)
    requires forall u :: StripIdempotentAt(d, u)
    requires hops >= QueryStripHops
    ensures DownloadLinks(d, url, channelID, hops) == GetDownloadLinks(d, url, channelID)
  {
    var k := FirstWinner(d.resolvers, url, 0);
    if k == |d.resolvers| && !HasPrefix(url, EmojiCdnPrefix)
       && d.stripQuery(url).Some? && d.stripQuery(url).value != url
    {
      var bare := d.stripQuery(url).value;
      assert StripIdempotentAt(d, url);
      NoRecursionAtFixpoint(d, bare, channelID, hops - 1);
      NoRecursionAtFixpoint(d, bare, channelID, QueryStripHops - 1);
    }
  }
}
