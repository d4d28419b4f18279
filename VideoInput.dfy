/**
 * src/components/VideoInput.tsx: finding the YouTube video id in a pasted URL and
 * loading the video. Three patterns are tried in order; each is a fixed prefix
 * followed by one or more characters other than `&`, newline, `?` and `#`, and
 * the first pattern the regular-expression engine can match anywhere decides.
 */
module VideoInput {
  import opened Wrappers
  import opened Text

  const WatchPattern: string := "youtube.com/watch?v="
  const ShortPattern: string := "youtu.be/"
  const EmbedPattern: string := "youtube.com/embed/"

  /** The class `[^&\n?#]`. */
  predicate IdChar(c: char) {
    c != '&' && c != '\n' && c != '?' && c != '#'
  }

  predicate AllIdChars(s: string) {
    forall k :: 0 <= k < |s| ==> IdChar(s[k])
  }

  /** `p` occurs in `s` at `i` (the engine compares characters exactly). */
  predicate StartsAt(s: string, i: nat, p: string) {
    i + |p| <= |s| && forall j :: 0 <= j < |p| ==> s[i + j] == p[j]
  }

  /** The engine succeeds at `i`: the prefix is there and at least one id character follows it. */
  predicate Usable(s: string, p: string, i: nat) {
    StartsAt(s, i, p) && i + |p| < |s| && IdChar(s[i + |p|])
  }

  /** The length of the greedy `[^&\n?#]+` run from `j`. */
  function IdRunLength(s: string, j: nat): (n: nat)
    requires j <= |s|
    ensures j + n <= |s|
    decreases |s| - j
  {
    if j < |s| && IdChar(s[j]) then 1 + IdRunLength(s, j + 1) else 0
  }

  /** The run holds id characters only and stops at the end or at the first excluded character. */
  lemma {:induction false} IdRunSpec(s: string, j: nat)
    requires j <= |s|
    ensures var n := IdRunLength(s, j); AllIdChars(s[j..j + n]) && (j + n == |s| || !IdChar(s[j + n]))
    decreases |s| - j
  {
    if j < |s| && IdChar(s[j]) {
      IdRunSpec(s, j + 1);
      var n := IdRunLength(s, j + 1);
      assert s[j..j + 1 + n] == [s[j]] + s[j + 1..j + 1 + n];
    }
  }

  /** The leftmost position from `i` on where the engine succeeds. */
  function FirstUsable(s: string, p: string, i: nat): (r: Option<nat>)
    requires i <= |s|
    ensures r.Some? ==> i <= r.value && r.value + |p| < |s|
    decreases |s| - i
  {
    if Usable(s, p, i) then Some(i)
    else if i < |s| then FirstUsable(s, p, i + 1)
    else None
  }

  /** The scan finds a usable position with none before it, or reports that there is none from `i` on. */
  lemma {:induction false} FirstUsableSpec(s: string, p: string, i: nat)
    requires i <= |s|
    ensures var r := FirstUsable(s, p, i);
      && (r.Some? ==> Usable(s, p, r.value) && forall k :: i <= k < r.value ==> !Usable(s, p, k))
      && (r.None? <==> forall k :: i <= k ==> !Usable(s, p, k))
    decreases |s| - i
  {
    if !Usable(s, p, i) && i < |s| {
      FirstUsableSpec(s, p, i + 1);
    }
  }

  /** `url.match(pattern)?.[1]`: the maximal id run after the leftmost usable occurrence of `p`. */
  function MatchIn(s: string, p: string): (r: Option<string>)
    ensures r.Some? <==> FirstUsable(s, p, 0).Some?
  {
    match FirstUsable(s, p, 0)
    case None => None
    case Some(k) =>
      var j := k + |p|;
      Some(s[j..j + IdRunLength(s, j)])
  }

  /** No match exactly when the pattern is usable nowhere; a match is a non-empty, maximal id run right after the leftmost usable occurrence. */
  lemma MatchInSpec(s: string, p: string)
    ensures var r := MatchIn(s, p);
      && (r.None? <==> forall k :: !Usable(s, p, k))
      && (r.Some? ==> r.value != "" && AllIdChars(r.value))
      && (r.Some? ==> var k := FirstUsable(s, p, 0).value; var j := k + |p|;
          && j + |r.value| <= |s| && r.value == s[j..j + |r.value|]
          && (j + |r.value| == |s| || !IdChar(s[j + |r.value|])))
  {
    FirstUsableSpec(s, p, 0);
    match FirstUsable(s, p, 0)
    case None =>
    case Some(k) =>
      var j := k + |p|;
      IdRunSpec(s, j);
      assert s[j..j + 1][0] == s[j];
  }

  /** `extractVideoId(url)`: the watch form, else the short form, else the embed form, else null. */
  function ExtractVideoId(url: string): (r: Option<string>)
    ensures MatchIn(url, WatchPattern).Some? ==> r == MatchIn(url, WatchPattern)
    ensures MatchIn(url, WatchPattern).None? && MatchIn(url, ShortPattern).Some? ==> r == MatchIn(url, ShortPattern)
    ensures MatchIn(url, WatchPattern).None? && MatchIn(url, ShortPattern).None? ==> r == MatchIn(url, EmbedPattern)
    ensures r.None? <==> forall k :: !Usable(url, WatchPattern, k) && !Usable(url, ShortPattern, k)
                                     && !Usable(url, EmbedPattern, k)
    ensures r.Some? ==> r.value != "" && AllIdChars(r.value)
  {
    MatchInSpec(url, WatchPattern);
    MatchInSpec(url, ShortPattern);
    MatchInSpec(url, EmbedPattern);
    var watch := MatchIn(url, WatchPattern);
    if watch.Some? then watch
    else
      var short := MatchIn(url, ShortPattern);
      if short.Some? then short else MatchIn(url, EmbedPattern)
  }

  /** One differing character rules an occurrence out. */
  lemma NotStartsAt(s: string, i: nat, p: string, j: nat)
    requires j < |p| && i + j < |s| && s[i + j] != p[j]
    ensures !StartsAt(s, i, p)
  {
    if i + |p| <= |s| {
      assert s[i..i + |p|][j] == s[i + j];
    }
  }

  /** A run of id characters to the end of the string is taken whole. */
  lemma RunToEnd(s: string, j: nat)
    requires j < |s| && AllIdChars(s[j..])
    ensures IdRunLength(s, j) == |s| - j
  {
    forall k | j <= k < |s| ensures IdChar(s[k]) {
      assert s[j..][k - j] == s[k];
    }
    RunToEndFrom(s, j);
  }

  lemma {:induction false} RunToEndFrom(s: string, j: nat)
    requires j <= |s| && forall k :: j <= k < |s| ==> IdChar(s[k])
    ensures IdRunLength(s, j) == |s| - j
    decreases |s| - j
  {
    if j < |s| {
      RunToEndFrom(s, j + 1);
    }
  }

  /** A pattern usable nowhere gives no match. */
  lemma NoMatch(s: string, p: string)
    requires forall k :: !Usable(s, p, k)
    ensures MatchIn(s, p).None?
  {
    FirstUsableSpec(s, p, 0);
  }

  /** A URL without '?' never matches the watch pattern. */
  lemma NoWatchWithoutQuestionMark(s: string)
    requires '?' !in s
    ensures forall k :: !Usable(s, WatchPattern, k)
  {
    forall k: nat ensures !Usable(s, WatchPattern, k) {
      if k + 17 < |s| {
        assert s[k + 17] in s;
        NotStartsAt(s, k, WatchPattern, 17);
      }
    }
  }

  /** The scan stops at the first usable position. */
  lemma {:induction false} FirstUsableAt(s: string, p: string, i: nat, at: nat)
    requires i <= at <= |s| && Usable(s, p, at)
    requires forall k :: i <= k < at ==> !Usable(s, p, k)
    ensures FirstUsable(s, p, i) == Some(at)
    decreases at - i
  {
    if i < at {
      FirstUsableAt(s, p, i + 1, at);
    }
  }

  /** The match is the run found after the first usable position. */
  lemma MatchInAt(s: string, p: string, at: nat, n: nat)
    requires at + |p| <= |s| && FirstUsable(s, p, 0) == Some(at) && IdRunLength(s, at + |p|) == n
    ensures MatchIn(s, p) == Some(s[at + |p|..at + |p| + n])
  {
    match FirstUsable(s, p, 0)
    case Some(k) =>
      assert k == at;
  }

  /** When `p` ends the prefix at `at` and occurs nowhere earlier, the match is the whole id. */
  lemma MatchAtEnd(prefix: string, id: string, p: string, at: nat)
    requires id != "" && AllIdChars(id)
    requires at + |p| == |prefix| && prefix[at..] == p
    requires forall k :: 0 <= k < at ==> !StartsAt(prefix + id, k, p)
    ensures MatchIn(prefix + id, p) == Some(id)
  {
    var s := prefix + id;
    assert FirstUsable(s, p, 0) == Some(at) by {
      assert s[at..at + |p|] == prefix[at..];
      assert s[|prefix|] == id[0];
      assert Usable(s, p, at);
      assert forall k :: 0 <= k < at ==> !Usable(s, p, k);
      FirstUsableAt(s, p, 0, at);
    }
    assert IdRunLength(s, |prefix|) == |id| by {
      assert s[|prefix|..] == id;
      RunToEnd(s, |prefix|);
    }
    MatchInAt(s, p, at, |id|);
    assert s[|prefix|..|prefix| + |id|] == id;
  }

  /** Round trip of the short form: `https://youtu.be/` followed by an id gives back that id. */
  lemma ShortUrlRoundTrip(id: string)
    requires id != "" && AllIdChars(id)
    ensures ExtractVideoId("https://youtu.be/" + id) == Some(id)
  {
    var prefix := "https://youtu.be/";
    var s := prefix + id;
    assert '?' !in id by {
      forall k | 0 <= k < |id| ensures id[k] != '?' { assert IdChar(id[k]); }
    }
    NoWatchWithoutQuestionMark(s);
    NoMatch(s, WatchPattern);
    forall k | 0 <= k < 8 ensures !StartsAt(s, k, ShortPattern) {
      assert s[k] == prefix[k];
      NotStartsAt(s, k, ShortPattern, 0);
    }
    MatchAtEnd(prefix, id, ShortPattern, 8);
  }

  /** Round trip of the watch form: `https://www.youtube.com/watch?v=` followed by an id gives back that id. */
  lemma WatchUrlRoundTrip(id: string)
    requires id != "" && AllIdChars(id)
    ensures ExtractVideoId("https://www.youtube.com/watch?v=" + id) == Some(id)
  {
    var prefix := "https://www.youtube.com/watch?v=";
    var s := prefix + id;
    forall k | 0 <= k < 12 ensures !StartsAt(s, k, WatchPattern) {
      assert s[k + 17] == prefix[k + 17];
      NotStartsAt(s, k, WatchPattern, 17);
    }
    MatchAtEnd(prefix, id, WatchPattern, 12);
  }

  /** The characters YouTube itself uses in video ids. */
  predicate YouTubeIdChar(c: char) {
    ('a' <= c <= 'z') || ('A' <= c <= 'Z') || ('0' <= c <= '9') || c == '-' || c == '_'
  }

  const EmbedBase: string := "https://www.youtube.com/embed/"

  /** Neither "youtu.be/" nor "youtube.com/watch?v=" starts inside the embed base, before its end. */
  lemma EmbedBaseHasNoShortForm(s: string)
    requires EmbedBase <= s
    ensures forall k :: 0 <= k < |EmbedBase| ==> !StartsAt(s, k, ShortPattern)
  {
    forall k | 0 <= k < |EmbedBase| ensures !StartsAt(s, k, ShortPattern) {
      assert s[k] == EmbedBase[k];
      if k == 12 {
        assert s[17] == EmbedBase[17];
        NotStartsAt(s, k, ShortPattern, 5);
      } else {
        NotStartsAt(s, k, ShortPattern, 0);
      }
    }
  }

  /** Round trip of the embed form, for ids in YouTube's own alphabet. */
  lemma EmbedUrlRoundTrip(id: string)
    requires id != "" && forall k :: 0 <= k < |id| ==> YouTubeIdChar(id[k])
    ensures ExtractVideoId(EmbedBase + id) == Some(id)
  {
    var s := EmbedBase + id;
    assert AllIdChars(id);
    assert '?' !in id && '.' !in id by {
      forall k | 0 <= k < |id| ensures id[k] != '?' && id[k] != '.' { assert YouTubeIdChar(id[k]); }
    }
    NoWatchWithoutQuestionMark(s);
    NoMatch(s, WatchPattern);
    NoShortFormInEmbedUrl(id);
    NoMatch(s, ShortPattern);
    NoEarlyEmbedForm(s);
    MatchAtEnd(EmbedBase, id, EmbedPattern, 12);
  }

  /** An embed URL whose id has no '.' holds no usable short form. */
  lemma NoShortFormInEmbedUrl(id: string)
    requires '.' !in id
    ensures forall k :: !Usable(EmbedBase + id, ShortPattern, k)
  {
    var s := EmbedBase + id;
    EmbedBaseHasNoShortForm(s);
    forall k: nat ensures !Usable(s, ShortPattern, k) {
      if |EmbedBase| <= k && k + 5 < |s| {
        assert s[k + 5] == id[k + 5 - |EmbedBase|];
        NotStartsAt(s, k, ShortPattern, 5);
      }
    }
  }

  /** In the embed base, "youtube.com/embed/" starts at 12 and nowhere before. */
  lemma NoEarlyEmbedForm(s: string)
    requires EmbedBase <= s
    ensures forall k :: 0 <= k < 12 ==> !StartsAt(s, k, EmbedPattern)
  {
    forall k | 0 <= k < 12 ensures !StartsAt(s, k, EmbedPattern) {
      assert s[k] == EmbedBase[k];
      NotStartsAt(s, k, EmbedPattern, 0);
    }
  }

  /**
   * Without that restriction the embed form does not round-trip: an id such as
   * "youtu.be/x" is made of id characters, so the watch form yields it whole
   * (`WatchUrlRoundTrip`), yet its embed URL is read back through the short form as "x".
   */
  lemma EmbedUrlShortFormInside(rest: string)
    requires rest != "" && AllIdChars(rest)
    ensures AllIdChars(ShortPattern + rest)
    ensures ExtractVideoId(EmbedBase + (ShortPattern + rest)) == Some(rest)
  {
    var prefix := EmbedBase + ShortPattern;
    var s := prefix + rest;
    assert EmbedBase + (ShortPattern + rest) == s;
    NoQuestionMarkInside(rest);
    NoWatchWithoutQuestionMark(s);
    NoMatch(s, WatchPattern);
    ShortAfterEmbedBase(rest);
    ShortPatternIdChars();
    AllIdCharsAppend(ShortPattern, rest);
  }

  /** "youtu.be/" is itself made of id characters. */
  lemma ShortPatternIdChars()
    ensures AllIdChars(ShortPattern)
  {
    forall k | 0 <= k < |ShortPattern| ensures IdChar(ShortPattern[k]) {
    }
  }

  /** Id characters followed by id characters are id characters. */
  lemma AllIdCharsAppend(a: string, b: string)
    requires AllIdChars(a) && AllIdChars(b)
    ensures AllIdChars(a + b)
  {
    forall k | 0 <= k < |a + b| ensures IdChar((a + b)[k]) {
      if k < |a| { assert (a + b)[k] == a[k]; } else { assert (a + b)[k] == b[k - |a|]; }
    }
  }

  /** The embed base followed by the short form and an id holds no question mark. */
  lemma NoQuestionMarkInside(rest: string)
    requires AllIdChars(rest)
    ensures '?' !in EmbedBase + ShortPattern + rest
  {
    assert '?' !in rest by {
      forall k | 0 <= k < |rest| ensures rest[k] != '?' { assert IdChar(rest[k]); }
    }
    assert '?' !in EmbedBase;
    assert '?' !in ShortPattern;
  }

  /** The short form after the embed base is the leftmost one, and the id runs to the end. */
  lemma ShortAfterEmbedBase(rest: string)
    requires rest != "" && AllIdChars(rest)
    ensures MatchIn(EmbedBase + ShortPattern + rest, ShortPattern) == Some(rest)
  {
    var prefix := EmbedBase + ShortPattern;
    var s := prefix + rest;
    assert EmbedBase <= s;
    EmbedBaseHasNoShortForm(s);
    assert prefix[|EmbedBase|..] == ShortPattern;
    MatchAtEnd(prefix, rest, ShortPattern, |EmbedBase|);
  }

  /** The record handed to `onVideoLoad`. */
  datatype VideoData = VideoData(id: string, title: string, channelTitle: string, thumbnail: string, embedUrl: string)

  /** `mockVideoData` for an id: fixed title and channel, thumbnail and embed URLs built from the id. */
  function MockVideoData(id: string): (v: VideoData)
    ensures v.id == id && v.title == "Video Title (Shadow Comments)" && v.channelTitle == "Channel Name"
    ensures v.thumbnail == "https://img.youtube.com/vi/" + id + "/hqdefault.jpg"
    ensures v.embedUrl == EmbedBase + id
  {
    VideoData(id, "Video Title (Shadow Comments)", "Channel Name",
              "https://img.youtube.com/vi/" + id + "/hqdefault.jpg", EmbedBase + id)
  }

  /** The form: the URL field and the loading flag. */
  class VideoForm {
    var url: string
    var isLoading: bool

    constructor ()
      ensures url == "" && !isLoading
    {
      url := "";
      isLoading := false;
    }

    /** The input's `onChange`. */
    method SetUrl(text: string)
      modifies this
      ensures url == text && isLoading == old(isLoading)
    {
      url := text;
    }

    /** `handleSubmit`; `loaded` is the `onVideoLoad(videoId, data)` call, None when none is made. */
    method HandleSubmit() returns (loaded: Option<(string, VideoData)>)
      modifies this
      ensures url == old(url)
      ensures AllSpace(url) ==> loaded.None? && isLoading == old(isLoading)
      ensures !AllSpace(url) ==> !isLoading
      ensures !AllSpace(url) && ExtractVideoId(url).None? ==> loaded.None?
      ensures !AllSpace(url) && ExtractVideoId(url).Some? ==>
        var id := ExtractVideoId(url).value;
        loaded == Some((id, MockVideoData(id)))
    {
      if Trim(url) == "" {
        return None;
      }
      isLoading := true;
      var id := ExtractVideoId(url);
      if id.None? {
        isLoading := false;
        return None;
      }
      loaded := Some((id.value, MockVideoData(id.value)));
      isLoading := false;
    }
  }
}
