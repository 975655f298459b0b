/**
 * The address bar of `AirBoardBrowser` (src/components/AirBoardBrowser.tsx):
 * what the user typed (`url`), what the frame shows (`currentUrl`), and the
 * loading flag.
 */
module Browser {

  const HomeUrl: string := "https://www.google.com"

  /** `s.startsWith(prefix)`: case-sensitive. */
  predicate StartsWith(s: string, prefix: string) {
    |prefix| <= |s| && s[..|prefix|] == prefix
  }

  predicate HasScheme(s: string) {
    StartsWith(s, "http://") || StartsWith(s, "https://")
  }

  /** The `formattedUrl` of `handleNavigate`: `https://` is added unless a scheme is there. */
  function FormatUrl(url: string): (r: string)
    ensures HasScheme(r)
    ensures |url| <= |r| && r[|r| - |url|..] == url
    ensures HasScheme(url) <==> r == url
    ensures !HasScheme(url) ==> r == "https://" + url
  {
    if !StartsWith(url, "http://") && !StartsWith(url, "https://") then "https://" + url
    else url
  }

  /** Formatting an already formatted address changes nothing. */
  lemma FormatUrlIdempotent(url: string)
    ensures FormatUrl(FormatUrl(url)) == FormatUrl(url)
  {
  }

  /** The scheme test is case-sensitive: an upper-case scheme gets a second one. */
  lemma FormatUrlIsCaseSensitive()
    ensures FormatUrl("HTTP://x") == "https://HTTP://x"
  {
    var typed := "HTTP://x";
    assert typed[..7][0] == 'H' && "http://"[0] == 'h';
    assert typed[..8][0] == 'H' && "https://"[0] == 'h';
  }

  class AirBoardBrowser {
    var url: string
    var currentUrl: string
    var isLoading: bool

    /** The frame always shows an address with a scheme. */
    ghost predicate Valid()
      reads this
    {
      HasScheme(currentUrl)
    }

    constructor ()
      ensures Valid()
      ensures url == HomeUrl && currentUrl == HomeUrl && !isLoading
    {
      url, currentUrl, isLoading := HomeUrl, HomeUrl, false;
      assert HomeUrl[..8] == "https://";
    }

    /** The address input's `onChange`. */
    method SetUrl(text: string)
      modifies this`url
      ensures url == text
    {
      url := text;
    }

    /**
     * `handleNavigate`: nothing for an empty address; otherwise loading
     * starts and the frame gets the formatted address.
     */
    method HandleNavigate()
      requires Valid()
      modifies this`currentUrl, this`isLoading
      ensures Valid()
      ensures old(url) == [] ==> currentUrl == old(currentUrl) && isLoading == old(isLoading)
      ensures old(url) != [] ==> currentUrl == FormatUrl(url) && isLoading
    {
      if url == [] {
        return;
      }
      isLoading := true;
      var formattedUrl := url;
      if !StartsWith(url, "http://") && !StartsWith(url, "https://") {
        formattedUrl := "https://" + url;
      }
      currentUrl := formattedUrl;
    }

    /** `handleHome`: both addresses become the home page, and a reload starts. */
    method HandleHome()
      modifies this
      ensures Valid()
      ensures url == HomeUrl && currentUrl == HomeUrl && isLoading
    {
      url := HomeUrl;
      currentUrl := HomeUrl;
      isLoading := true;
      assert HomeUrl[..8] == "https://";
    }
  }
}
