/** Recognising tweet links and extracting the status ID
    (src/utils/tweetHelpers.ts). The regular expression
    `(?:twitter|x)\.com\/\w+\/status\/(\d+)` is matched by hand: `\w` cannot
    match `/`, so the handle is always the whole run of word characters after
    `.com/`, and the greedy `\d+` captures the whole run of digits. */
module TweetHelpers {
  import opened Wrappers
  import opened Strings

  /** `isTweetUrl`: a Twitter or X host segment and a `status/` segment
      occur somewhere, in any order. */
  predicate IsTweetUrl(url: string) {
    (Contains(url, "twitter.com/") || Contains(url, "x.com/")) && Contains(url, "status/")
  }

  /** The position test: each piece is looked for independently of the others. */
  lemma IsTweetUrlByPosition(url: string)
    ensures IsTweetUrl(url) <==>
      ((exists i :: OccursAt(url, "twitter.com/", i)) || (exists i :: OccursAt(url, "x.com/", i)))
      && (exists j :: OccursAt(url, "status/", j))
  {
    ContainsIff(url, "twitter.com/");
    ContainsIff(url, "x.com/");
    ContainsIff(url, "status/");
  }

  /** The character classes of the pattern: `\w` (ASCII) and `\d`. */
  datatype CharClass = Word | Digit {
    predicate Has(c: char) {
      match this
      case Word => 'A' <= c <= 'Z' || 'a' <= c <= 'z' || '0' <= c <= '9' || c == '_'
      case Digit => IsDigit(c)
    }
  }

  /** The length of the longest run of `cls` characters starting at `i`. */
  function Run(s: string, i: nat, cls: CharClass): (n: nat)
    requires i <= |s|
    ensures i + n <= |s|
    decreases |s| - i
  {
    if i < |s| && cls.Has(s[i]) then 1 + Run(s, i + 1, cls) else 0
  }

  /** Every character of the run is in the class. */
  lemma {:induction false} RunChars(s: string, i: nat, cls: CharClass)
    requires i <= |s|
    ensures forall k :: i <= k < i + Run(s, i, cls) ==> cls.Has(s[k])
    decreases |s| - i
  {
    if i < |s| && cls.Has(s[i]) {
      RunChars(s, i + 1, cls);
    }
  }

  /** The run stops at the end of the text or at a character outside the class. */
  lemma {:induction false} RunEnd(s: string, i: nat, cls: CharClass)
    requires i <= |s|
    ensures i + Run(s, i, cls) == |s| || !cls.Has(s[i + Run(s, i, cls)])
    decreases |s| - i
  {
    if i < |s| && cls.Has(s[i]) {
      RunEnd(s, i + 1, cls);
    }
  }

  /** `n` class characters from `i` on make a run at least `n` long. */
  lemma {:induction false} RunAtLeast(s: string, i: nat, cls: CharClass, n: nat)
    requires i + n <= |s|
    requires forall k :: i <= k < i + n ==> cls.Has(s[k])
    ensures Run(s, i, cls) >= n
    decreases n
  {
    if n > 0 {
      RunAtLeast(s, i + 1, cls, n - 1);
    }
  }

  /** The alternation `(?:twitter|x)` at `i`: the length of the alternative
      that matches. The two alternatives start with different letters, so at
      most one can. */
  function HostAt(s: string, i: nat): (h: Option<nat>)
    ensures h.Some? ==> i + h.value <= |s|
  {
    if OccursAt(s, "twitter", i) then Some(7)
    else if OccursAt(s, "x", i) then Some(1)
    else None
  }

  /** The capture of the pattern when a match starts exactly at `i`. */
  function MatchAt(s: string, i: nat): (r: Option<string>)
    ensures r.Some? ==> |r.value| > 0 && AllDigits(r.value)
  {
    match HostAt(s, i)
    case None => None
    case Some(h) =>
      if !OccursAt(s, ".com/", i + h) then None
      else
        var p := i + h + 5;
        var w := Run(s, p, Word);
        if w == 0 || !OccursAt(s, "/status/", p + w) then None
        else
          var q := p + w + 8;
          var d := Run(s, q, Digit);
          if d == 0 then None
          else
            DigitRun(s, q);
            Some(s[q..q + d])
  }

  /** The result at the first position from `i` to `n` where `f` gives one:
      `String.prototype.match` tries the start positions left to right. */
  function Leftmost<T>(f: nat -> Option<T>, i: nat, n: nat): Option<T>
    requires i <= n
    decreases n - i
  {
    if f(i).Some? then f(i) else if i == n then None else Leftmost(f, i + 1, n)
  }

  /** The scan returns the result at the first position that has one, and
      nothing when no position from `i` to `n` has one. */
  lemma {:induction false} LeftmostSpec<T>(f: nat -> Option<T>, i: nat, n: nat)
    requires i <= n
    ensures Leftmost(f, i, n).Some? ==>
      exists j :: i <= j <= n && f(j) == Leftmost(f, i, n) && forall k :: i <= k < j ==> f(k).None?
    ensures Leftmost(f, i, n).None? <==> forall k :: i <= k <= n ==> f(k).None?
    decreases n - i
  {
    if f(i).None? && i < n {
      LeftmostSpec(f, i + 1, n);
      if Leftmost(f, i, n).Some? {
        var j :| i + 1 <= j <= n && f(j) == Leftmost(f, i + 1, n)
                 && forall k :: i + 1 <= k < j ==> f(k).None?;
        assert forall k :: i <= k < j ==> f(k).None?;
      }
    }
  }

  /** `extractTweetId`: the first capture group of the leftmost match, or null. */
  function ExtractTweetId(url: string): (r: Option<string>)
    ensures r.Some? ==> exists i :: 0 <= i <= |url| && MatchAt(url, i) == r
    ensures r.Some? ==> |r.value| > 0 && AllDigits(r.value)
  {
    var r := Leftmost((i: nat) => MatchAt(url, i), 0, |url|);
    LeftmostSpec((i: nat) => MatchAt(url, i), 0, |url|);
    r
  }

  /** The leftmost-match characterisation of `ExtractTweetId` in terms of `MatchAt`. */
  lemma ExtractTweetIdLeftmost(url: string)
    ensures ExtractTweetId(url).Some? ==>
      exists j :: 0 <= j <= |url| && MatchAt(url, j) == ExtractTweetId(url)
                  && forall k :: 0 <= k < j ==> MatchAt(url, k).None?
    ensures ExtractTweetId(url).None? <==> forall k :: 0 <= k <= |url| ==> MatchAt(url, k).None?
  {
    var f := (i: nat) => MatchAt(url, i);
    LeftmostSpec(f, 0, |url|);
    assert forall k: nat :: f(k) == MatchAt(url, k);
  }

  /** An occurrence of the pattern, stated piece by piece: a host, `.com/`,
      a non-empty handle of word characters, `/status/` and a non-empty run
      of digits, adjacent to each other and starting at `i`. */
  ghost predicate PatternAt(s: string, i: int, host: string, handle: string, digits: string) {
    && (host == "twitter" || host == "x")
    && OccursAt(s, host, i)
    && TailAt(s, i + |host|, handle, digits)
  }

  /** The part of an occurrence after the host, starting at `.com/` at `a`. */
  ghost predicate TailAt(s: string, a: int, handle: string, digits: string) {
    && |handle| > 0 && AllIn(handle, Word)
    && |digits| > 0 && AllDigits(digits)
    && OccursAt(s, ".com/", a)
    && OccursAt(s, handle, a + 5)
    && OccursAt(s, "/status/", a + 5 + |handle|)
    && OccursAt(s, digits, a + 13 + |handle|)
  }

  /** The occurrence cannot be extended by a further digit, as greedy
      matching of `\\d+` requires of the capture. */
  ghost predicate Maximal(s: string, i: int, host: string, handle: string, digits: string) {
    var e := i + |host| + 13 + |handle| + |digits|;
    0 <= e <= |s| && (e == |s| || !IsDigit(s[e]))
  }

  /** What `MatchAt` checked when it returns a capture: the host length
      `h`, the handle length `w` and the digit count `d`. */
  lemma MatchAtUnfold(s: string, i: nat) returns (h: nat, w: nat, d: nat)
    requires MatchAt(s, i).Some?
    ensures HostAt(s, i) == Some(h)
    ensures i + h + 5 <= |s| && OccursAt(s, ".com/", i + h)
    ensures w == Run(s, i + h + 5, Word) && w > 0 && OccursAt(s, "/status/", i + h + 5 + w)
    ensures d == Run(s, i + h + 13 + w, Digit) && d > 0
    ensures MatchAt(s, i) == Some(s[i + h + 13 + w..i + h + 13 + w + d])
  {
    h := HostAt(s, i).value;
    w := Run(s, i + h + 5, Word);
    d := Run(s, i + h + 5 + w + 8, Digit);
  }

  /** The converse of `MatchAtUnfold`: when every check passes, `MatchAt` captures the digit run. */
  lemma MatchAtFold(s: string, i: nat, h: nat, w: nat, d: nat)
    requires HostAt(s, i) == Some(h)
    requires i + h + 5 <= |s| && OccursAt(s, ".com/", i + h)
    requires w == Run(s, i + h + 5, Word) && w > 0 && OccursAt(s, "/status/", i + h + 5 + w)
    requires d == Run(s, i + h + 13 + w, Digit) && d > 0
    ensures MatchAt(s, i) == Some(s[i + h + 13 + w..i + h + 13 + w + d])
  {
  }

  /** The alternative `HostAt` reports, as text. */
  lemma HostOf(s: string, i: nat) returns (host: string)
    requires HostAt(s, i).Some?
    ensures host == "twitter" || host == "x"
    ensures |host| == HostAt(s, i).value && OccursAt(s, host, i)
  {
    host := if OccursAt(s, "twitter", i) then "twitter" else "x";
  }

  /** The alternative `HostAt` reports is present at `i`. */
  lemma HostAtSpec(s: string, i: nat)
    ensures HostAt(s, i).Some? ==> HostAt(s, i).value == 7 || HostAt(s, i).value == 1
    ensures HostAt(s, i) == Some(7) ==> OccursAt(s, "twitter", i)
    ensures HostAt(s, i) == Some(1) ==> OccursAt(s, "x", i)
  {
  }

  /** Whatever `MatchAt` returns is an occurrence of the pattern with a maximal capture. */
  lemma MatchAtSound(s: string, i: nat)
    requires MatchAt(s, i).Some?
    ensures exists host, handle :: PatternAt(s, i, host, handle, MatchAt(s, i).value)
                                   && Maximal(s, i, host, handle, MatchAt(s, i).value)
  {
    var h, w, d := MatchAtUnfold(s, i);
    var host, handle := SoundCore(s, i, h, w, d, MatchAt(s, i).value);
  }

  /** The checks `MatchAtUnfold` reports make an occurrence with a maximal capture. */
  lemma SoundCore(s: string, i: nat, h: nat, w: nat, d: nat, digits: string) returns (host: string, handle: string)
    requires HostAt(s, i) == Some(h)
    requires i + h + 5 <= |s| && OccursAt(s, ".com/", i + h)
    requires w == Run(s, i + h + 5, Word) && w > 0 && OccursAt(s, "/status/", i + h + 5 + w)
    requires d == Run(s, i + h + 13 + w, Digit) && d > 0
    requires digits == s[i + h + 13 + w..i + h + 13 + w + d]
    ensures PatternAt(s, i, host, handle, digits) && Maximal(s, i, host, handle, digits)
  {
    host := HostOf(s, i);
    handle := s[i + h + 5..i + h + 5 + w];
    SoundPieces(s, i + h, w, d);
    SoundMaximal(s, i, host, h, w, d);
    SoundHost(s, i, host, handle, digits);
  }

  /** A host alternative followed by a tail is an occurrence. */
  lemma SoundHost(s: string, i: nat, host: string, handle: string, digits: string)
    requires host == "twitter" || host == "x"
    requires OccursAt(s, host, i) && TailAt(s, i + |host|, handle, digits)
    ensures PatternAt(s, i, host, handle, digits)
  {
  }

  /** The pieces `MatchAt` checks after the host, assembled into the tail of an occurrence. */
  lemma SoundPieces(s: string, a: nat, w: nat, d: nat)
    requires OccursAt(s, ".com/", a)
    requires w > 0 && w == Run(s, a + 5, Word)
    requires OccursAt(s, "/status/", a + 5 + w)
    requires d > 0 && d == Run(s, a + 13 + w, Digit)
    ensures TailAt(s, a, s[a + 5..a + 5 + w], s[a + 13 + w..a + 13 + w + d])
  {
    RunSlice(s, a + 5, Word);
    DigitRun(s, a + 13 + w);
  }

  /** The capture `MatchAt` takes is the whole digit run, so the occurrence is maximal. */
  lemma SoundMaximal(s: string, i: nat, host: string, h: nat, w: nat, d: nat)
    requires |host| == h && i + h + 13 + w <= |s|
    requires d == Run(s, i + h + 13 + w, Digit)
    ensures var p, q := i + h + 5, i + h + 13 + w;
      Maximal(s, i, host, s[p..p + w], s[q..q + d])
  {
    RunEnd(s, i + h + 13 + w, Digit);
  }

  /** Every character of `t` is in the class. */
  predicate AllIn(t: string, cls: CharClass) {
    forall k :: 0 <= k < |t| ==> cls.Has(t[k])
  }

  /** A digit run read back through the slice is all digits. */
  lemma DigitRun(s: string, q: nat)
    requires q <= |s|
    ensures AllDigits(s[q..q + Run(s, q, Digit)])
  {
    RunSlice(s, q, Digit);
  }

  /** The characters of a run, read back through the slice. */
  lemma RunSlice(s: string, i: nat, cls: CharClass)
    requires i <= |s|
    ensures AllIn(s[i..i + Run(s, i, cls)], cls)
  {
    RunChars(s, i, cls);
    var t := s[i..i + Run(s, i, cls)];
    forall k | 0 <= k < |t| ensures cls.Has(t[k]) {
      assert t[k] == s[i + k];
    }
  }

  /** A run of `n` class characters followed by end-of-text or a character
      outside the class is exactly what `Run` measures. */
  lemma {:induction false} RunIs(s: string, i: nat, cls: CharClass, n: nat)
    requires i + n <= |s|
    requires forall k :: i <= k < i + n ==> cls.Has(s[k])
    requires i + n == |s| || !cls.Has(s[i + n])
    ensures Run(s, i, cls) == n
    decreases n
  {
    if n > 0 {
      RunIs(s, i + 1, cls, n - 1);
    }
  }

  /** The host alternative of an occurrence is the one `HostAt` picks. */
  lemma PatternHost(s: string, i: nat, host: string, handle: string, digits: string)
    requires PatternAt(s, i, host, handle, digits)
    ensures HostAt(s, i) == Some(|host|)
  {
    if host == "x" {
      assert s[i] == 'x';
    }
  }

  /** The handle of an occurrence is the whole word run after `.com/`. */
  lemma PatternHandle(s: string, i: nat, host: string, handle: string, digits: string)
    requires PatternAt(s, i, host, handle, digits)
    ensures Run(s, i + |host| + 5, Word) == |handle|
  {
    var p := i + |host| + 5;
    var w := |handle|;
    assert forall k :: p <= k < p + w ==> s[k] == handle[k - p];
    assert s[p + w] == '/' by {
      assert s[p + w..p + w + 8][0] == s[p + w];
    }
    RunIs(s, p, Word, w);
  }

  /** The digit run after `/status/` is at least as long as the occurrence's
      digits, and exactly as long when the occurrence is maximal. */
  lemma PatternDigits(s: string, i: nat, host: string, handle: string, digits: string)
    requires PatternAt(s, i, host, handle, digits)
    ensures Run(s, i + |host| + 13 + |handle|, Digit) >= |digits|
    ensures Maximal(s, i, host, handle, digits) ==> Run(s, i + |host| + 13 + |handle|, Digit) == |digits|
  {
    var q := i + |host| + 13 + |handle|;
    assert forall k :: q <= k < q + |digits| ==> s[k] == digits[k - q];
    RunAtLeast(s, q, Digit, |digits|);
    if Maximal(s, i, host, handle, digits) {
      RunIs(s, q, Digit, |digits|);
    }
  }

  /** Every occurrence of the pattern is found by `MatchAt` at its start,
      and the capture extends the occurrence's digits (equals them when the
      occurrence is maximal). */
  lemma MatchAtComplete(s: string, i: nat, host: string, handle: string, digits: string)
    requires PatternAt(s, i, host, handle, digits)
    ensures MatchAt(s, i).Some?
    ensures StartsWith(MatchAt(s, i).value, digits)
    ensures Maximal(s, i, host, handle, digits) ==> MatchAt(s, i).value == digits
  {
    var h, w, d := PatternFacts(s, i, host, handle, digits);
    MatchAtFold(s, i, h, w, d);
    CaptureStartsWith(s, i + h + 13 + w, d, digits);
  }

  /** An occurrence passes every check of `MatchAt`, stated in the terms
      `MatchAtFold` takes: host length `h`, handle length `w`, digit run `d`. */
  lemma PatternFacts(s: string, i: nat, host: string, handle: string, digits: string) returns (h: nat, w: nat, d: nat)
    requires PatternAt(s, i, host, handle, digits)
    ensures HostAt(s, i) == Some(h)
    ensures i + h + 5 <= |s| && OccursAt(s, ".com/", i + h)
    ensures w == Run(s, i + h + 5, Word) && w > 0 && OccursAt(s, "/status/", i + h + 5 + w)
    ensures d == Run(s, i + h + 13 + w, Digit) && d > 0
    ensures OccursAt(s, digits, i + h + 13 + w) && |digits| <= d && i + h + 13 + w + d <= |s|
    ensures Maximal(s, i, host, handle, digits) ==> d == |digits|
  {
    PatternHost(s, i, host, handle, digits);
    PatternHandle(s, i, host, handle, digits);
    PatternDigits(s, i, host, handle, digits);
    h, w := |host|, |handle|;
    d := Run(s, i + h + 13 + w, Digit);
  }

  lemma CaptureStartsWith(s: string, q: nat, d: nat, digits: string)
    requires OccursAt(s, digits, q) && |digits| <= d && q + d <= |s|
    ensures StartsWith(s[q..q + d], digits)
    ensures d == |digits| ==> s[q..q + d] == digits
  {
    assert s[q..q + d][..|digits|] == s[q..q + |digits|];
  }

  /** `extractTweetId` returns the capture of the leftmost occurrence of the
      pattern, with no occurrence at all starting earlier; it returns null
      exactly when the pattern occurs nowhere. */
  lemma ExtractTweetIdSpec(url: string)
    ensures ExtractTweetId(url).Some? ==>
      exists i, host, handle ::
        && PatternAt(url, i, host, handle, ExtractTweetId(url).value)
        && Maximal(url, i, host, handle, ExtractTweetId(url).value)
        && forall j, h, w, d :: 0 <= j < i ==> !PatternAt(url, j, h, w, d)
    ensures ExtractTweetId(url).None? <==>
      forall j, h, w, d :: !PatternAt(url, j, h, w, d)
  {
    ExtractTweetIdLeftmost(url);
    forall j: int, h, w, d | PatternAt(url, j, h, w, d) ensures 0 <= j <= |url| && MatchAt(url, j).Some? {
      MatchAtComplete(url, j, h, w, d);
    }
    if ExtractTweetId(url).Some? {
      var i :| 0 <= i <= |url| && MatchAt(url, i) == ExtractTweetId(url)
               && forall k :: 0 <= k < i ==> MatchAt(url, k).None?;
      MatchAtSound(url, i);
    }
  }

  lemma LiteralsJoin()
    ensures "twitter" + ".com/" == "twitter.com/" && "x" + ".com/" == "x.com/"
    ensures "/" + "status/" == "/status/"
  {
  }

  /** A match at `i` starts with a host segment and contains `status/`. */
  lemma MatchAtPieces(url: string, i: nat)
    requires MatchAt(url, i).Some?
    ensures OccursAt(url, "twitter.com/", i) || OccursAt(url, "x.com/", i)
    ensures exists j :: OccursAt(url, "status/", j)
  {
    var h, w, d := MatchAtUnfold(url, i);
    HostAtSpec(url, i);
    LiteralsJoin();
    if h == 7 {
      OccursAtConcat(url, "twitter", ".com/", i);
    } else {
      OccursAtConcat(url, "x", ".com/", i);
    }
    OccursAtConcat(url, "/", "status/", i + h + 5 + w);
  }

  /** A link `extractTweetId` accepts is one `isTweetUrl` accepts. */
  lemma ExtractedImpliesTweetUrl(url: string)
    requires ExtractTweetId(url).Some?
    ensures IsTweetUrl(url)
  {
    var i :| 0 <= i <= |url| && MatchAt(url, i) == ExtractTweetId(url);
    MatchAtPieces(url, i);
    IsTweetUrlByPosition(url);
  }

  /** The converse fails: `isTweetUrl` accepts `x.com/status/1`, which has
      no handle between the host and `/status/`, and `extractTweetId` returns
      null for it (the text is shorter than any match of the pattern). */
  lemma TweetUrlWithoutHandle()
    ensures IsTweetUrl("x.com/status/1")
    ensures ExtractTweetId("x.com/status/1").None?
  {
    var u := "x.com/status/1";
    assert OccursAt(u, "x.com/", 0);
    assert OccursAt(u, "status/", 6);
    IsTweetUrlByPosition(u);
    forall k | 0 <= k <= |u| ensures MatchAt(u, k).None? {
      if MatchAt(u, k).Some? {
        MatchNeedsLength(u, k);
      }
    }
    ExtractTweetIdLeftmost(u);
  }

  /** The shortest text the pattern matches, `x.com/a/status/1`, has 16 characters. */
  lemma MatchNeedsLength(s: string, k: nat)
    requires MatchAt(s, k).Some?
    ensures k + 16 <= |s|
  {
  }
}
