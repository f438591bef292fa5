/** The `YoutubeVideo` value object, whose constructor extracts the video id
    from a URL with the unanchored pattern `(?:youtu\.be/|v=)([A-Za-z0-9_-]{11})`,
    and the request-parameter converter that guards it against a missing or
    empty URL. */
module YoutubeVideo {
  import opened Wrappers
  import opened Jobs
  import opened JavaText

  const IdLength: nat := 11
  const ShortLinkMarker: string := "youtu.be/"
  const QueryMarker: string := "v="
  const BadUrlPrefix: string := "잘못된 YouTube URL 형식입니다: "
  /** The converter's message, whose first letter is missing in the code. */
  const EmptyUrlMessage: string := "ouTube URL은 null이거나 비어 있을 수 없습니다."

  /** `[A-Za-z0-9_-]`. */
  predicate IsIdChar(c: char) {
    ('A' <= c <= 'Z') || ('a' <= c <= 'z') || ('0' <= c <= '9') || c == '_' || c == '-'
  }

  predicate IsVideoId(s: string) {
    |s| == IdLength && forall k :: 0 <= k < |s| ==> IsIdChar(s[k])
  }

  /** Eleven id chars start at `i`. */
  predicate IdFollows(url: string, i: nat) {
    i + IdLength <= |url| && IsVideoId(url[i..i + IdLength])
  }

  /** Where the captured id starts when the pattern matches at `p`, trying
      the two alternatives in order (they begin with different letters, so
      at most one of them can be present at `p`). */
  function IdStartAt(url: string, p: nat): (r: Option<nat>)
    ensures r.Some? ==> IdFollows(url, r.value)
  {
    if OccursAt(url, ShortLinkMarker, p) && IdFollows(url, p + |ShortLinkMarker|) then Some(p + |ShortLinkMarker|)
    else if OccursAt(url, QueryMarker, p) && IdFollows(url, p + |QueryMarker|) then Some(p + |QueryMarker|)
    else None
  }

  /** `Matcher.find` from `p`: the first position at or after `p` where the
      pattern matches. */
  function FindFrom(url: string, p: nat): (r: Option<nat>)
    requires p <= |url|
    ensures r.Some? ==> p <= r.value <= |url| && IdStartAt(url, r.value).Some?
    ensures r.Some? ==> forall q :: p <= q < r.value ==> IdStartAt(url, q).None?
    ensures r.None? ==> forall q :: p <= q <= |url| ==> IdStartAt(url, q).None?
    decreases |url| - p
  {
    if IdStartAt(url, p).Some? then Some(p)
    else if p == |url| then None
    else FindFrom(url, p + 1)
  }

  datatype YoutubeVideo = YoutubeVideo(videoId: string)

  /** `new YoutubeVideo(url)`. */
  function NewYoutubeVideo(url: string): (r: Result<YoutubeVideo, Exception>)
    ensures r.Success? <==> exists p :: 0 <= p <= |url| && IdStartAt(url, p).Some?
    ensures r.Success? ==> IsVideoId(r.value.videoId)
    ensures r.Success? ==> exists p :: (0 <= p <= |url| && IdStartAt(url, p).Some?
      && (forall q :: 0 <= q < p ==> IdStartAt(url, q).None?)
      && r.value.videoId == url[IdStartAt(url, p).value..IdStartAt(url, p).value + IdLength])
    ensures r.Failure? ==> r.error == IllegalArgument(BadUrlPrefix + url)
  {
    match FindFrom(url, 0)
    case None => Failure(IllegalArgument(BadUrlPrefix + url))
    case Some(p) =>
      var i := IdStartAt(url, p).value;
      Success(YoutubeVideo(url[i..i + IdLength]))
  }

  /** A marker right at the start decides the id, whatever follows the
      eleven chars, a twelfth id char included. */
  lemma MarkerAtStart(id: string, rest: string)
    requires IsVideoId(id)
    ensures NewYoutubeVideo(QueryMarker + id + rest) == Success(YoutubeVideo(id))
    ensures NewYoutubeVideo(ShortLinkMarker + id + rest) == Success(YoutubeVideo(id))
  {
    var u := QueryMarker + id + rest;
    assert u[2..2 + IdLength] == id;
    assert u[0] == 'v' && u[..2] == QueryMarker;
    assert !OccursAt(u, ShortLinkMarker, 0) by {
      assert ShortLinkMarker[0] == 'y';
    }
    assert IdStartAt(u, 0) == Some(2);
    var v := ShortLinkMarker + id + rest;
    assert v[9..9 + IdLength] == id;
    assert OccursAt(v, ShortLinkMarker, 0);
    assert IdStartAt(v, 0) == Some(9);
  }

  const WatchHost: string := "https://www."
  const WatchPath: string := "youtube.com/watch?"
  const WatchQuery: string := "v=dQw4w9WgXcQ"

  /** The usual watch URL: the `youtube` in the host name is not a short
      link, and the id after `v=` is taken. */
  lemma WatchUrl()
    ensures NewYoutubeVideo(WatchHost + WatchPath + WatchQuery) == Success(YoutubeVideo("dQw4w9WgXcQ"))
  {
    var u := WatchHost + WatchPath + WatchQuery;
    WatchUrlNoEarlierMatch();
    WatchUrlMatch();
    assert FindFrom(u, 30) == Some(30);
    FindFromSkips(u, 0, 30);
  }

  lemma WatchUrlNoEarlierMatch()
    ensures forall q :: 0 <= q < 30 ==> IdStartAt(WatchHost + WatchPath + WatchQuery, q).None?
  {
    var u := WatchHost + WatchPath + WatchQuery;
    var tail := WatchPath[1..];
    assert 'y' !in WatchHost && 'v' !in WatchHost;
    assert 'y' !in tail && 'v' !in tail;
    forall q | 0 <= q < 30
      ensures IdStartAt(u, q).None?
    {
      if q == 12 {
        assert u[17] == WatchPath[5] == 'b';
        assert !OccursAt(u, ShortLinkMarker, q) by {
          assert q + 9 <= |u| ==> u[q..q + 9][5] == u[17];
        }
        assert !OccursAt(u, QueryMarker, q) by {
          assert u[q..q + 2][0] == 'y';
        }
      } else {
        assert u[q] != 'y' && u[q] != 'v' by {
          if q < 12 {
            assert u[q] == WatchHost[q];
          } else {
            assert u[q] == tail[q - 13];
          }
        }
        assert !OccursAt(u, ShortLinkMarker, q) by {
          assert q + 9 <= |u| ==> u[q..q + 9][0] == u[q];
        }
        assert !OccursAt(u, QueryMarker, q) by {
          assert u[q..q + 2][0] == u[q];
        }
      }
    }
  }

  lemma WatchUrlMatch()
    ensures IdStartAt(WatchHost + WatchPath + WatchQuery, 30) == Some(32)
    ensures (WatchHost + WatchPath + WatchQuery)[32..43] == "dQw4w9WgXcQ"
  {
    var u := WatchHost + WatchPath + WatchQuery;
    assert u[30..] == WatchQuery;
    assert u[30..32] == WatchQuery[..2] == QueryMarker;
    assert u[32..43] == WatchQuery[2..] == "dQw4w9WgXcQ";
    assert !OccursAt(u, ShortLinkMarker, 30) by {
      assert u[30] == 'v';
    }
  }

  /** `FindFrom` passes over positions where nothing matches. */
  lemma {:induction false} FindFromSkips(url: string, p: nat, q: nat)
    requires p <= q <= |url|
    requires forall k :: p <= k < q ==> IdStartAt(url, k).None?
    ensures FindFrom(url, p) == FindFrom(url, q)
    decreases q - p
  {
    if p < q {
      FindFromSkips(url, p + 1, q);
    }
  }

  /** A URL with fewer than eleven id chars after the marker is rejected. */
  lemma ShortIdRejected()
    ensures NewYoutubeVideo("https://youtu.be/abc") == Failure(IllegalArgument(BadUrlPrefix + "https://youtu.be/abc"))
  {
    var u := "https://youtu.be/abc";
    assert |u| == 20 && u[5] == ':' && u[16] == '/';
    forall i: nat | i + IdLength <= |u|
      ensures !IdFollows(u, i)
    {
      var j := if i <= 5 then 5 else 16;
      assert i <= j < i + IdLength;
      assert u[i..i + IdLength][j - i] == u[j];
      assert !IsIdChar(u[j]);
    }
    assert FindFrom(u, 0).None?;
  }

  /** `StringToYoutubeVideoConverter.convert`; `None` is a Java `null`. */
  function Convert(source: Option<string>): (r: Result<YoutubeVideo, Exception>)
    ensures source.None? || source == Some("") ==> r == Failure(InvalidYoutubeUrl(EmptyUrlMessage))
    ensures source.Some? && source.value != "" ==> r == NewYoutubeVideo(source.value)
  {
    if source.None? || |source.value| == 0 then Failure(InvalidYoutubeUrl(EmptyUrlMessage))
    else NewYoutubeVideo(source.value)
  }

  /** Only a missing or empty URL is reported as an invalid URL; a
      non-empty URL without an id surfaces the constructor's
      `IllegalArgumentException`. */
  lemma ConvertErrors(source: Option<string>)
    requires Convert(source).Failure?
    ensures Convert(source).error.InvalidYoutubeUrl? <==> source.None? || source.value == ""
    ensures source.Some? && source.value != "" ==>
      Convert(source).error == IllegalArgument(BadUrlPrefix + source.value)
  {
  }
}
