/** `get_thumbnail` (bot.py:588-618): the URL of a thumbnail small enough for
    Telegram, searched from the end of yt-dlp's list. */
module Thumbnails {
  import opened Wrappers
  import opened Strings

  const MaxSize := 320

  /** One entry of `info['thumbnails']`; a number is `None` when absent or `null`. */
  datatype Thumbnail = Thumbnail(url: string, width: Option<int>, height: Option<int>, resolution: Option<string>)

  /** `w, h = map(int, resolution.split('x'))`, or `None` where that raises `ValueError`. */
  function ParseResolution(resolution: string): Option<(int, int)> {
    var parts := Split(resolution, 'x');
    if |parts| != 2 then None
    else match (ParseInt(parts[0]), ParseInt(parts[1]))
      case (Some(w), Some(h)) => Some((w, h))
      case _ => None
  }

  /** Both dimensions are truthy and within the limit. */
  predicate FitsByDimensions(t: Thumbnail) {
    && t.width.Some? && t.width.value != 0
    && t.height.Some? && t.height.value != 0
    && t.width.value <= MaxSize && t.height.value <= MaxSize
  }

  /** A non-empty `WxH` resolution whose two numbers are within the limit. */
  predicate FitsByResolution(t: Thumbnail) {
    && t.resolution.Some? && t.resolution.value != []
    && ParseResolution(t.resolution.value).Some?
    && ParseResolution(t.resolution.value).value.0 <= MaxSize
    && ParseResolution(t.resolution.value).value.1 <= MaxSize
  }

  predicate Fits(t: Thumbnail) {
    FitsByDimensions(t) || FitsByResolution(t)
  }

  /** `get_thumbnail(thumbnails)`: nothing for an empty list; otherwise the last
      thumbnail that fits, or the first one when none fits. */
  method GetThumbnail(thumbnails: seq<Thumbnail>) returns (url: Option<string>)
    ensures thumbnails == [] ==> url == None
    ensures (exists i :: 0 <= i < |thumbnails| && Fits(thumbnails[i])) ==>
      exists i :: 0 <= i < |thumbnails| && Fits(thumbnails[i]) && url == Some(thumbnails[i].url) &&
        forall j :: i < j < |thumbnails| ==> !Fits(thumbnails[j])
    ensures thumbnails != [] && (forall i :: 0 <= i < |thumbnails| ==> !Fits(thumbnails[i])) ==>
      url == Some(thumbnails[0].url)
  {
    if thumbnails == [] {
      return None;
    }
    var k := |thumbnails|;
    while k > 0
      invariant 0 <= k <= |thumbnails|
      invariant forall j :: k <= j < |thumbnails| ==> !Fits(thumbnails[j])
    {
      k := k - 1;
      var t := thumbnails[k];
      if t.width.Some? && t.width.value != 0 && t.height.Some? && t.height.value != 0
        && t.width.value <= MaxSize && t.height.value <= MaxSize
      {
        assert Fits(thumbnails[k]);
        return Some(t.url);
      }
      if t.resolution.Some? && t.resolution.value != [] {
        match ParseResolution(t.resolution.value)
        case Some((w, h)) =>
          if w <= MaxSize && h <= MaxSize {
            assert Fits(thumbnails[k]);
            return Some(t.url);
          }
        case None =>
      }
    }
    return Some(thumbnails[0].url);
  }

  /** A `WxH` resolution written from two numbers reads back as those numbers. */
  lemma ParseResolutionRoundTrip(w: int, h: int)
    ensures ParseResolution(IntToString(w) + "x" + IntToString(h)) == Some((w, h))
  {
    var a := IntToString(w);
    var b := IntToString(h);
    assert 'x' !in a by {
      SignOfIntToString(w);
      assert IsDigits(NatToString(if w < 0 then -w else w));
    }
    assert 'x' !in b by {
      SignOfIntToString(h);
      assert IsDigits(NatToString(if h < 0 then -h else h));
    }
    SplitAfterPart(a, 'x', b);
    SplitWithoutSep(b, 'x');
    assert a + "x" + b == a + ['x'] + b;
    ParseIntRoundTrip(w);
    ParseIntRoundTrip(h);
  }
}
