/**
 * The landing page: step 1 captures a site from a URL the user typed,
 * step 2 takes the user's goal and hands both to the builder page.
 */
module Landing {
  import opened Wrappers
  import opened JsString
  import opened Types

  /** ASCII lower case, the only folding the case-insensitive scheme test
      applies. */
  function Lower(c: char): char {
    if 'A' <= c <= 'Z' then (c as int + 32) as char else c
  }

  /** `/^https?:\/\//i`: "http", an optional "s", then "://", in any
      letter case. */
  predicate HasScheme(s: string) {
    |s| >= 7 && Lower(s[0]) == 'h' && Lower(s[1]) == 't' && Lower(s[2]) == 't' && Lower(s[3]) == 'p'
    && (s[4..7] == "://" || (|s| >= 8 && Lower(s[4]) == 's' && s[5..8] == "://"))
  }

  /** `s` with every ASCII capital folded to lower case. */
  function LowerAll(s: string): (r: string)
    ensures |r| == |s|
    ensures forall i :: 0 <= i < |s| ==> r[i] == Lower(s[i])
  {
    seq(|s|, i requires 0 <= i < |s| => Lower(s[i]))
  }

  /** Folding leaves a character that is not a letter alone and turns no
      other character into it. */
  lemma LowerKeeps(c: char, d: char)
    requires !('a' <= d <= 'z') && !('A' <= d <= 'Z')
    ensures Lower(c) == d <==> c == d
  {
    if 'A' <= c <= 'Z' {
      assert (c as int + 32) as char as int == c as int + 32;
    }
  }

  /** "://" at `a` survives folding, and folding does not create it. */
  lemma SeparatorKept(s: string, a: nat)
    requires a + 3 <= |s|
    ensures s[a..a + 3] == "://" <==> LowerAll(s)[a..a + 3] == "://"
  {
    var l := LowerAll(s);
    LowerKeeps(s[a], ':');
    LowerKeeps(s[a + 1], '/');
    LowerKeeps(s[a + 2], '/');
    IsSeparator(s[a..a + 3]);
    IsSeparator(l[a..a + 3]);
  }

  lemma IsSeparator(t: string)
    requires |t| == 3
    ensures t == "://" <==> t[0] == ':' && t[1] == '/' && t[2] == '/'
  {
    if t[0] == ':' && t[1] == '/' && t[2] == '/' {
      assert t == [t[0], t[1], t[2]];
    }
  }

  /** A string starts with `x + y` when it starts with `x` and `y` follows. */
  lemma StartsWithParts(l: string, x: string, y: string)
    ensures StartsWith(l, x + y) <==> |x| + |y| <= |l| && l[..|x|] == x && l[|x|..|x| + |y|] == y
  {
    if |x| + |y| <= |l| {
      assert l[..|x| + |y|] == l[..|x|] + l[|x|..|x| + |y|];
    }
  }

  /** The scheme test, for every input: after folding the letter case the
      string starts with "http://" or "https://". */
  lemma SchemeIsPrefix(s: string)
    ensures HasScheme(s) <==> StartsWith(LowerAll(s), "http://") || StartsWith(LowerAll(s), "https://")
  {
    HttpPrefix(s);
    HttpsPrefix(s);
  }

  lemma HttpPrefix(s: string)
    ensures (|s| >= 7 && Lower(s[0]) == 'h' && Lower(s[1]) == 't' && Lower(s[2]) == 't' && Lower(s[3]) == 'p'
             && s[4..7] == "://")
      <==> StartsWith(LowerAll(s), "http://")
  {
    var l := LowerAll(s);
    HttpParts(l);
    if |s| >= 7 {
      SeparatorKept(s, 4);
      FoldedHttp(s);
    }
  }

  lemma HttpParts(l: string)
    ensures StartsWith(l, "http://") <==> |l| >= 7 && l[..4] == "http" && l[4..7] == "://"
  {
    assert "http://" == "http" + "://";
    StartsWithParts(l, "http", "://");
  }

  lemma HttpsPrefix(s: string)
    ensures (|s| >= 8 && Lower(s[0]) == 'h' && Lower(s[1]) == 't' && Lower(s[2]) == 't' && Lower(s[3]) == 'p'
             && Lower(s[4]) == 's' && s[5..8] == "://")
      <==> StartsWith(LowerAll(s), "https://")
  {
    var l := LowerAll(s);
    assert "https://" == "https" + "://";
    StartsWithParts(l, "https", "://");
    if |s| >= 8 {
      SeparatorKept(s, 5);
      FoldedHttp(s);
      IsHttps(l[..5]);
      assert l[..5][..4] == l[..4];
    }
  }

  /** The first four folded characters spell "http" exactly when each
      folds to the right letter. */
  lemma FoldedHttp(s: string)
    requires |s| >= 4
    ensures LowerAll(s)[..4] == "http" <==>
      Lower(s[0]) == 'h' && Lower(s[1]) == 't' && Lower(s[2]) == 't' && Lower(s[3]) == 'p'
  {
    var l := LowerAll(s);
    IsHttp(l[..4]);
    assert l[..4][0] == l[0] && l[..4][1] == l[1] && l[..4][2] == l[2] && l[..4][3] == l[3];
  }

  lemma IsHttp(t: string)
    requires |t| == 4
    ensures t == "http" <==> t[0] == 'h' && t[1] == 't' && t[2] == 't' && t[3] == 'p'
  {
    if t[0] == 'h' && t[1] == 't' && t[2] == 't' && t[3] == 'p' {
      assert t == [t[0], t[1], t[2], t[3]];
    }
  }

  lemma IsHttps(t: string)
    requires |t| == 5
    ensures t == "https" <==> t[..4] == "http" && t[4] == 's'
  {
    if t[..4] == "http" && t[4] == 's' {
      assert t == t[..4] + [t[4]];
    }
  }

  const DefaultScheme: string := "https://"
  const EmptyUrlMessage: string := "Please enter a URL"
  const CaptureFailed: string := "Failed to capture the page"

  /** The URL that is captured: the trimmed input, with "https://" put in
      front when it has no scheme of its own. */
  function NormalizeUrl(url: string): (r: string)
    requires Trim(url) != ""
    ensures HasScheme(r)
    ensures HasScheme(Trim(url)) ==> r == Trim(url)
    ensures !HasScheme(Trim(url)) ==> r == DefaultScheme + Trim(url)
  {
    var t := Trim(url);
    if HasScheme(t) then t else DefaultScheme + t
  }

  /** Normalising a normalised URL changes nothing. */
  lemma NormalizeIdempotent(url: string)
    requires Trim(url) != ""
    ensures Trim(NormalizeUrl(url)) == NormalizeUrl(url) && NormalizeUrl(NormalizeUrl(url)) == NormalizeUrl(url)
  {
    var t := Trim(url);
    var r := NormalizeUrl(url);
    assert IsTrimmed(r) by {
      if !HasScheme(t) {
        assert r[0] == 'h' && r[|r| - 1] == t[|t| - 1];
      }
    }
    TrimTrimmed(r);
  }

  /** The scheme test ignores letter case and accepts only http and
      https. */
  lemma SchemeExamples()
    ensures HasScheme("HTTPS://x") && HasScheme("Http://x")
    ensures !HasScheme("ftp://x") && !HasScheme("https:/x") && !HasScheme("linear.app")
  {
    assert "HTTPS://x"[5..8] == "://";
    assert "Http://x"[4..7] == "://";
    assert Lower('H') == 'h' && Lower('T') == 't' && Lower('P') == 'p' && Lower('S') == 's';
    assert "https:/x"[4..7][0] == 's' && "https:/x"[5..8][2] == 'x';
  }

  /** The reply to the capture request: a rejected fetch or unreadable
      body, a non-ok status with the body's `error` field ("" when
      missing), or the captured page. */
  datatype ScrapeReply = ScrapeThrew(message: string) | ScrapeNotOk(error: string) | ScrapeOk(data: ScrapeResult)

  /** The session-storage hand-off to the builder page. */
  function Handoff(capture: ScrapeResult, goal: string): (d: BuilderData)
    ensures d.url == capture.url && d.screenshot == capture.screenshot
    ensures d.html == capture.html && d.title == capture.title && d.prompt == goal
  {
    BuilderData(capture.url, capture.screenshot, capture.html, capture.title, goal)
  }

  class Home {
    var step: nat
    var url: string
    var prompt: string
    var loading: bool
    var error: string
    var scrapeData: Option<ScrapeResult>
    /** The `builderData` entry of session storage. */
    var stored: Option<BuilderData>
    /** Whether the page has navigated to the builder. */
    var leftForBuilder: bool

    ghost predicate Valid()
      reads this
    {
      (step == 1 || step == 2) && (step == 2 ==> scrapeData.Some?)
    }

    constructor ()
      ensures Valid()
      ensures step == 1 && url == "" && prompt == "" && !loading && error == ""
      ensures scrapeData == None && stored == None && !leftForBuilder
    {
      step := 1;
      url, prompt := "", "";
      loading := false;
      error := "";
      scrapeData := None;
      stored := None;
      leftForBuilder := false;
    }

    /** The URL field is edited; any error is cleared. */
    method EditUrl(text: string)
      modifies this`url, this`error
      ensures url == text && error == ""
    {
      url := text;
      error := "";
    }

    method EditPrompt(text: string)
      modifies this`prompt
      ensures prompt == text
    {
      prompt := text;
    }

    /** The synchronous start of `handleScrape`: an empty URL is an error;
        otherwise the normalised URL is requested, written back to the
        field only when a scheme was added, and the page is busy. */
    method BeginScrape() returns (request: Option<string>)
      modifies this`url, this`loading, this`error
      ensures Trim(old(url)) == "" ==>
        request == None && error == EmptyUrlMessage && url == old(url) && loading == old(loading)
      ensures Trim(old(url)) != "" ==>
        request == Some(NormalizeUrl(old(url))) && loading && error == ""
        && url == (if HasScheme(Trim(old(url))) then old(url) else NormalizeUrl(old(url)))
    {
      var trimmed := Trim(url);
      if trimmed == "" {
        error := EmptyUrlMessage;
        return None;
      }
      var finalUrl := trimmed;
      if !HasScheme(finalUrl) {
        finalUrl := DefaultScheme + finalUrl;
        url := finalUrl;
      }
      loading := true;
      error := "";
      request := Some(finalUrl);
    }

    /** The rest of `handleScrape`: a capture moves to step 2, a failure
        shows its message. */
    method CompleteScrape(reply: ScrapeReply)
      requires Valid()
      modifies this`step, this`scrapeData, this`error, this`loading
      ensures Valid() && !loading
      ensures reply.ScrapeOk? ==> step == 2 && scrapeData == Some(reply.data) && error == old(error)
      ensures reply.ScrapeNotOk? ==>
        error == (if reply.error != "" then reply.error else CaptureFailed)
        && step == old(step) && scrapeData == old(scrapeData)
      ensures reply.ScrapeThrew? ==> error == reply.message && step == old(step) && scrapeData == old(scrapeData)
    {
      match reply {
        case ScrapeOk(data) =>
          scrapeData := Some(data);
          step := 2;
        case ScrapeNotOk(e) =>
          error := if e != "" then e else CaptureFailed;
        case ScrapeThrew(m) =>
          error := m;
      }
      loading := false;
    }

    /** "Change": back to step 1, the capture dropped. */
    method Change()
      modifies this`step, this`scrapeData
      ensures Valid() && step == 1 && scrapeData == None
    {
      step := 1;
      scrapeData := None;
    }

    /** `handleGenerate`: with a goal and a capture, store both for the
        builder (the goal trimmed) and go there; otherwise nothing. */
    method HandleGenerate()
      modifies this`stored, this`leftForBuilder
      ensures Trim(prompt) == "" || scrapeData.None? ==>
        stored == old(stored) && leftForBuilder == old(leftForBuilder)
      ensures Trim(prompt) != "" && scrapeData.Some? ==>
        stored == Some(Handoff(scrapeData.value, Trim(prompt))) && leftForBuilder
    {
      var goal := Trim(prompt);
      if goal == "" || scrapeData.None? {
        return;
      }
      stored := Some(Handoff(scrapeData.value, goal));
      leftForBuilder := true;
    }
  }
}
