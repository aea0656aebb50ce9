/** Scheme normalisation of the URLs the portal hands back. Two different
    tests are in use: the play URL is prefixed when `http:` does not occur
    in it, the manifest URL and the segment locators when `http` does not. */
module Urls {
  import opened Text

  const Scheme: string := "http:"

  /** `parse_play_url`: prefix `http:` unless `http:` already occurs. */
  function NormalizePlayUrl(playUrl: string): (r: string)
    ensures Occurs("http:", r)
    ensures r == playUrl || r == Scheme + playUrl
  {
    if Occurs("http:", playUrl) then playUrl
    else
      OccursAtFront("http:", playUrl);
      Scheme + playUrl
  }

  /** The manifest URL in `China_Trial/crawl/trial.py` and `crawl/specify_trial.py`,
      and every segment locator: prefix `http:` unless `http` already occurs. */
  function NormalizeLocator(locator: string): (r: string)
    ensures Occurs("http", r)
    ensures r == locator || r == Scheme + locator
  {
    if Occurs("http", locator) then locator
    else
      OccursAtFront("http:", locator);
      assert "http" + ":" == Scheme;
      OccursPrefix("http", ":", Scheme + locator);
      Scheme + locator
  }

  /** The play URL changes exactly when `http:` is missing from it, and then
      only by the `http:` prefix. */
  lemma PlayUrlPrefixedIff(playUrl: string)
    ensures NormalizePlayUrl(playUrl) != playUrl <==> !Occurs("http:", playUrl)
    ensures NormalizePlayUrl(playUrl) != playUrl ==> NormalizePlayUrl(playUrl) == Scheme + playUrl
  {
    assert |Scheme + playUrl| == |playUrl| + 5;
  }

  /** A locator changes exactly when `http` is missing from it. */
  lemma LocatorPrefixedIff(locator: string)
    ensures NormalizeLocator(locator) != locator <==> !Occurs("http", locator)
    ensures NormalizeLocator(locator) != locator ==> NormalizeLocator(locator) == Scheme + locator
  {
    assert |Scheme + locator| == |locator| + 5;
  }

  /** Normalising a second time changes nothing. */
  lemma NormalizeIdempotent(url: string)
    ensures NormalizePlayUrl(NormalizePlayUrl(url)) == NormalizePlayUrl(url)
    ensures NormalizeLocator(NormalizeLocator(url)) == NormalizeLocator(url)
  {
  }

  /** A normalised play URL already passes the weaker locator test. */
  lemma {:induction false} PlayUrlPassesLocatorTest(playUrl: string)
    ensures NormalizeLocator(NormalizePlayUrl(playUrl)) == NormalizePlayUrl(playUrl)
  {
    assert "http" + ":" == "http:";
    OccursPrefix("http", ":", NormalizePlayUrl(playUrl));
  }

  /** The two tests disagree on an `https` URL: the play URL test prefixes
      it, the locator test leaves it alone. */
  lemma {:induction false} SchemeTestsDisagreeOnHttps()
    ensures NormalizePlayUrl("https://v/p") == "http:https://v/p"
    ensures NormalizeLocator("https://v/p") == "https://v/p"
  {
    var u := "https://v/p";
    forall i | 0 <= i <= |u| - 5
      ensures !IsAt("http:", u, i)
    {
      if i == 0 {
        assert u[4] == 's';
        assert u[i..i + 5][4] != ':';
      } else {
        assert u[i] != 'h';
        assert u[i..i + 5][0] != 'h';
      }
    }
    assert IsAt("http", u, 0);
  }

  /** `parse_m3u8_file` in `crawl/trial.py` as written: the prefixed value
      goes to an unused local, so the first capture is returned unchanged. */
  function M3u8UrlAsWritten(capture: string): string
  {
    capture
  }

  /** A scheme-relative manifest URL leaves `parse_m3u8_file` in `crawl/trial.py`
      still without a scheme, while the normalisation the other variants
      apply gives it one. */
  lemma {:induction false} M3u8UrlLosesScheme()
    ensures !Occurs("http", M3u8UrlAsWritten("//v/a.m3u8"))
    ensures NormalizeLocator("//v/a.m3u8") == "http://v/a.m3u8"
  {
    NoOccurrenceWithoutFirstChar("http", "//v/a.m3u8");
  }
}
