/**
 * The two link helpers of the concert scraper: cutting a download link out
 * of a search-engine redirect, and resuming a list of links at the
 * checkpoint of the last download.
 */
module Scrape {
  import opened Wrappers
  import opened Strings

  /** The redirect that wraps every scraped link; `scrub` cuts its length off the front. */
  const RedirectPrefix := "https://www.google.com/url?q="

  /** The number of characters `scrub` drops: the length of `RedirectPrefix`. */
  const RedirectLength := 29

  /** The link of the last download, which `read_checkpoint` returns. */
  const CurrentCheckpoint := "https://www.google.com/url?q=http://www.mediafire.com/download/yvi8av9c32c8dd9/1990-01-28_-_The_Front_-_Burlington%252C_VT.rar&sa=D&ust=1569280314653000&usg=AFQjCNGTr88AfDbeoCd2I9smbdPvGmSoNw"

  /**
   * `dl[29:].split("&")[0]`: the link after the first 29 characters, up to
   * its first '&'.
   */
  function Scrub(dl: string): (r: string)
    ensures |dl| <= RedirectLength ==> r == ""
    ensures '&' !in r
    ensures r <= DropPrefix(dl, RedirectLength)
    ensures '&' !in DropPrefix(dl, RedirectLength) ==> r == DropPrefix(dl, RedirectLength)
    ensures |r| < |DropPrefix(dl, RedirectLength)| ==> DropPrefix(dl, RedirectLength)[|r|] == '&'
  {
    var rest := DropPrefix(dl, RedirectLength);
    SplitHead(rest, '&');
    Split(rest, '&')[0]
  }

  /** The redirect prefix is exactly the part `Scrub` drops. */
  lemma RedirectPrefixLength()
    ensures |RedirectPrefix| == RedirectLength
  {
  }

  /** Scrubbing a redirect to `url` followed by its '&' parameters gives back `url`. */
  lemma {:induction false} ScrubRedirect(url: string, params: string)
    requires '&' !in url
    ensures Scrub(RedirectPrefix + url + "&" + params) == url
  {
    RedirectPrefixLength();
    var dl := RedirectPrefix + url + "&" + params;
    var rest := url + "&" + params;
    assert DropPrefix(dl, RedirectLength) == rest by {
      assert dl == RedirectPrefix + rest;
      assert dl[RedirectLength..] == rest;
    }
    assert url <= rest && rest[|url|] == '&';
    SplitHeadUnique(rest, '&', url);
  }

  /**
   * The links from the first one equal to the checkpoint onwards, or None
   * when the checkpoint is not among them.
   */
  method GetRemainingDownloadLinks(downloadLinks: seq<string>) returns (r: Option<seq<string>>)
    ensures r.None? <==> CurrentCheckpoint !in downloadLinks
    ensures r.Some? ==>
      exists i :: 0 <= i < |downloadLinks| && r.value == downloadLinks[i..] &&
        downloadLinks[i] == CurrentCheckpoint &&
        forall k :: 0 <= k < i ==> downloadLinks[k] != CurrentCheckpoint
    ensures r.Some? ==> |r.value| <= |downloadLinks| && r.value[0] == CurrentCheckpoint
  {
    var lastLink := CurrentCheckpoint;
    var i := 0;
    while i < |downloadLinks|
      invariant 0 <= i <= |downloadLinks|
      invariant forall k :: 0 <= k < i ==> downloadLinks[k] != lastLink
    {
      if downloadLinks[i] == lastLink {
        return Some(downloadLinks[i..]);
      }
      i := i + 1;
    }
    return None;
  }
}
