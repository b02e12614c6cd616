/** The format classifier of `DownloadContext.process_formats` (bot.py:658-791):
    raw yt-dlp format records are filtered into muxed video and audio-only
    entries, each list is sorted best first, and three quality tiers are
    picked per kind by first-match searches with fallbacks. */
module Classifier {
  import opened Wrappers
  import opened Lists

  /** A string-valued key of a yt-dlp record: absent, JSON `null`, or a string. */
  datatype Field = Missing | Null | Value(text: string)

  /** One entry of `info['formats']`. A numeric field is `None` when it is absent or
      `null`; the two are treated alike by the classifier. */
  datatype RawFormat = RawFormat(
    formatId: Option<string>,
    ext: Option<string>,
    formatNote: Option<string>,
    vcodec: Field,
    acodec: Field,
    height: Option<int>,
    tbr: Option<real>,
    abr: Option<real>,
    filesize: Option<int>,
    filesizeApprox: Option<int>)

  /** A muxed video+audio entry of the video list. */
  datatype VideoFormat = VideoFormat(formatId: string, ext: string, height: int, fileSize: int, tbr: real, formatNote: string)

  /** An audio-only entry of the audio list. */
  datatype AudioFormat = AudioFormat(formatId: string, ext: string, abr: real, fileSize: int)

  /** The `high`/`medium`/`low` dictionary of one kind; `None` for an empty slot. */
  datatype Tiers<T> = Tiers(high: Option<T>, medium: Option<T>, low: Option<T>)

  /** `self.formats`: `{}` until a classification succeeds, then both kinds' tiers. */
  datatype Formats = NoFormats | Formats(video: Tiers<VideoFormat>, audio: Tiers<AudioFormat>)

  // ---------------------------------------------------------------------------
  // Filtering
  // ---------------------------------------------------------------------------

  /** `fmt.get(k, 'none') != 'none'`: an absent codec counts as no stream, a `null` one does not. */
  predicate HasStream(f: Field) {
    !f.Missing? && f != Value("none")
  }

  /** A truthy number: present, not `null` and not zero. */
  predicate Truthy(n: Option<int>) {
    n.Some? && n.value != 0
  }

  /** `fmt.get('filesize') or fmt.get('filesize_approx', 0)`, made 0 when falsy. */
  function FileSize(f: RawFormat): int {
    if Truthy(f.filesize) then f.filesize.value
    else if Truthy(f.filesizeApprox) then f.filesizeApprox.value
    else 0
  }

  /** Enters the video list: both streams, a nonzero height and a positive total bitrate.
      A `null` bitrate makes `tbr > 0` raise, which drops the record as well. */
  predicate UsableVideo(f: RawFormat) {
    HasStream(f.vcodec) && HasStream(f.acodec) && Truthy(f.height) && f.tbr.Some? && f.tbr.value > 0.0
  }

  /** Enters the audio list: an audio stream, no video stream, a nonzero audio bitrate. */
  predicate UsableAudio(f: RawFormat) {
    HasStream(f.acodec) && !HasStream(f.vcodec) && f.abr.Some? && f.abr.value != 0.0
  }

  function ToVideo(f: RawFormat): VideoFormat
    requires UsableVideo(f)
  {
    VideoFormat(f.formatId.GetOr(""), f.ext.GetOr("mp4"), f.height.value, FileSize(f), f.tbr.value, f.formatNote.GetOr(""))
  }

  function ToAudio(f: RawFormat): AudioFormat
    requires UsableAudio(f)
  {
    AudioFormat(f.formatId.GetOr(""), f.ext.GetOr("mp3"), f.abr.value, FileSize(f))
  }

  /** The video list before sorting, in record order. */
  function VideoCandidates(raw: seq<RawFormat>): seq<VideoFormat> {
    if raw == [] then []
    else
      var f := raw[|raw| - 1];
      VideoCandidates(raw[..|raw| - 1]) + (if UsableVideo(f) then [ToVideo(f)] else [])
  }

  /** The audio list before sorting, in record order. */
  function AudioCandidates(raw: seq<RawFormat>): seq<AudioFormat> {
    if raw == [] then []
    else
      var f := raw[|raw| - 1];
      AudioCandidates(raw[..|raw| - 1]) + (if UsableAudio(f) then [ToAudio(f)] else [])
  }

  /** A record is never in both lists. */
  lemma UsableExclusive(f: RawFormat)
    ensures !(UsableVideo(f) && UsableAudio(f))
  {
  }

  /** The video list holds exactly the conversions of the usable muxed records. */
  lemma {:induction false} VideoCandidatesMembers(raw: seq<RawFormat>, v: VideoFormat)
    ensures v in VideoCandidates(raw) <==> exists i :: 0 <= i < |raw| && UsableVideo(raw[i]) && ToVideo(raw[i]) == v
  {
    if raw != [] {
      var init := raw[..|raw| - 1];
      var f := raw[|raw| - 1];
      VideoCandidatesMembers(init, v);
      assert VideoCandidates(raw) == VideoCandidates(init) + (if UsableVideo(f) then [ToVideo(f)] else []);
      if v in VideoCandidates(raw) {
        if v in VideoCandidates(init) {
          var i :| 0 <= i < |init| && UsableVideo(init[i]) && ToVideo(init[i]) == v;
          assert raw[i] == init[i];
        } else {
          assert UsableVideo(raw[|raw| - 1]) && ToVideo(raw[|raw| - 1]) == v;
        }
      } else {
        forall i | 0 <= i < |raw| && UsableVideo(raw[i])
          ensures ToVideo(raw[i]) != v
        {
          if i < |init| {
            assert init[i] == raw[i];
          }
        }
      }
    }
  }

  /** The audio list holds exactly the conversions of the usable audio-only records. */
  lemma {:induction false} AudioCandidatesMembers(raw: seq<RawFormat>, a: AudioFormat)
    ensures a in AudioCandidates(raw) <==> exists i :: 0 <= i < |raw| && UsableAudio(raw[i]) && ToAudio(raw[i]) == a
  {
    if raw != [] {
      var init := raw[..|raw| - 1];
      var f := raw[|raw| - 1];
      AudioCandidatesMembers(init, a);
      assert AudioCandidates(raw) == AudioCandidates(init) + (if UsableAudio(f) then [ToAudio(f)] else []);
      if a in AudioCandidates(raw) {
        if a in AudioCandidates(init) {
          var i :| 0 <= i < |init| && UsableAudio(init[i]) && ToAudio(init[i]) == a;
          assert raw[i] == init[i];
        } else {
          assert UsableAudio(raw[|raw| - 1]) && ToAudio(raw[|raw| - 1]) == a;
        }
      } else {
        forall i | 0 <= i < |raw| && UsableAudio(raw[i])
          ensures ToAudio(raw[i]) != a
        {
          if i < |init| {
            assert init[i] == raw[i];
          }
        }
      }
    }
  }

  /** The video list is empty exactly when no record is usable as video. */
  lemma {:induction false} VideoCandidatesEmpty(raw: seq<RawFormat>)
    ensures VideoCandidates(raw) == [] <==> forall i :: 0 <= i < |raw| ==> !UsableVideo(raw[i])
  {
    if VideoCandidates(raw) != [] {
      VideoCandidatesMembers(raw, VideoCandidates(raw)[0]);
    }
    if exists i :: 0 <= i < |raw| && UsableVideo(raw[i]) {
      var i :| 0 <= i < |raw| && UsableVideo(raw[i]);
      VideoCandidatesMembers(raw, ToVideo(raw[i]));
    }
  }

  /** The audio list is empty exactly when no record is usable as audio. */
  lemma {:induction false} AudioCandidatesEmpty(raw: seq<RawFormat>)
    ensures AudioCandidates(raw) == [] <==> forall i :: 0 <= i < |raw| ==> !UsableAudio(raw[i])
  {
    if AudioCandidates(raw) != [] {
      AudioCandidatesMembers(raw, AudioCandidates(raw)[0]);
    }
    if exists i :: 0 <= i < |raw| && UsableAudio(raw[i]) {
      var i :| 0 <= i < |raw| && UsableAudio(raw[i]);
      AudioCandidatesMembers(raw, ToAudio(raw[i]));
    }
  }

  // ---------------------------------------------------------------------------
  // Sorting and tiers
  // ---------------------------------------------------------------------------

  /** `(x['height'], x['tbr'])` */
  function VideoKey(v: VideoFormat): Key {
    Key(v.height as real, v.tbr)
  }

  /** `x['abr']` */
  function AudioKey(a: AudioFormat): Key {
    Key(a.abr, 0.0)
  }

  /** `f['height'] >= h`, as a filter. */
  function HeightAtLeast(h: int): VideoFormat -> bool {
    (f: VideoFormat) => f.height >= h
  }

  /** `f['height'] <= h`, as a filter. */
  function HeightAtMost(h: int): VideoFormat -> bool {
    (f: VideoFormat) => f.height <= h
  }

  /** `f['abr'] >= r`, as a filter. */
  function AbrAtLeast(r: real): AudioFormat -> bool {
    (f: AudioFormat) => f.abr >= r
  }

  /** `lo <= f['abr'] < hi`, as a filter. */
  function AbrIn(lo: real, hi: real): AudioFormat -> bool {
    (f: AudioFormat) => lo <= f.abr < hi
  }

  /** `f['abr'] <= r`, as a filter. */
  function AbrAtMost(r: real): AudioFormat -> bool {
    (f: AudioFormat) => f.abr <= r
  }

  /** The first format at most `cap` high; failing that, the first at most `fallback`
      high; failing that, the last one. */
  function UnderCap(v: seq<VideoFormat>, cap: int, fallback: int): VideoFormat
    requires v != []
  {
    Next(v, HeightAtMost(cap), Next(v, HeightAtMost(fallback), v[|v| - 1]))
  }

  /** The video tiers of a list sorted best first (bot.py:720-746). */
  function VideoTiers(v: seq<VideoFormat>): Tiers<VideoFormat> {
    if v == [] then Tiers(None, None, None)
    else
      Tiers(
        Some(Next(v, HeightAtLeast(1080), Next(v, HeightAtLeast(720), v[0]))),
        Some(UnderCap(v, 720, 1080)),
        Some(UnderCap(v, 480, 720)))
  }

  /** The audio tiers of a list sorted best first (bot.py:762-779). */
  function AudioTiers(a: seq<AudioFormat>): Tiers<AudioFormat> {
    if a == [] then Tiers(None, None, None)
    else
      var high := Next(a, AbrAtLeast(256.0), a[0]);
      var medium := Next(a, AbrIn(128.0, 256.0), high);
      Tiers(Some(high), Some(medium), Some(Next(a, AbrAtMost(128.0), medium)))
  }

  const NoValidFormats := "No valid formats found for this video"

  /** `process_formats(formats)`: the new `self.formats`, or the error it raises. */
  function Classify(raw: seq<RawFormat>): Result<Formats, string> {
    var video := VideoCandidates(raw);
    var audio := AudioCandidates(raw);
    if video == [] && audio == [] then Failure(NoValidFormats)
    else Success(Formats(VideoTiers(SortDesc(video, VideoKey)), AudioTiers(SortDesc(audio, AudioKey))))
  }

  // ---------------------------------------------------------------------------
  // Properties
  // ---------------------------------------------------------------------------

  predicate AllSome<T>(t: Tiers<T>) {
    t.high.Some? && t.medium.Some? && t.low.Some?
  }

  predicate AllNone<T>(t: Tiers<T>) {
    t.high.None? && t.medium.None? && t.low.None?
  }

  predicate TiersIn<T(==)>(t: Tiers<T>, s: seq<T>) {
    (t.high.Some? ==> t.high.value in s) && (t.medium.Some? ==> t.medium.value in s) && (t.low.Some? ==> t.low.value in s)
  }

  /** Classification fails exactly when no record is usable as video or as audio. */
  lemma ClassifyFails(raw: seq<RawFormat>)
    ensures Classify(raw).Failure? <==>
      forall i :: 0 <= i < |raw| ==> !UsableVideo(raw[i]) && !UsableAudio(raw[i])
    ensures Classify(raw).Failure? ==> Classify(raw).error == NoValidFormats
  {
    VideoCandidatesEmpty(raw);
    AudioCandidatesEmpty(raw);
  }

  /** A non-empty list yields three tiers taken from it, an empty one three empty slots. */
  lemma VideoTiersShape(v: seq<VideoFormat>)
    ensures v != [] ==> AllSome(VideoTiers(v)) && TiersIn(VideoTiers(v), v)
    ensures v == [] ==> AllNone(VideoTiers(v))
  {
  }

  /** A non-empty list yields three tiers taken from it, an empty one three empty slots. */
  lemma AudioTiersShape(a: seq<AudioFormat>)
    ensures a != [] ==> AllSome(AudioTiers(a)) && TiersIn(AudioTiers(a), a)
    ensures a == [] ==> AllNone(AudioTiers(a))
  {
  }

  /** The tiers of the sorted video list are taken from the unsorted one. */
  lemma SortedVideoTiers(v: seq<VideoFormat>)
    ensures var t := VideoTiers(SortDesc(v, VideoKey));
      (v != [] ==> AllSome(t)) && (v == [] ==> AllNone(t)) && TiersIn(t, v)
  {
    SortDescMembers(v, VideoKey);
    VideoTiersShape(SortDesc(v, VideoKey));
  }

  /** The tiers of the sorted audio list are taken from the unsorted one. */
  lemma SortedAudioTiers(a: seq<AudioFormat>)
    ensures var t := AudioTiers(SortDesc(a, AudioKey));
      (a != [] ==> AllSome(t)) && (a == [] ==> AllNone(t)) && TiersIn(t, a)
  {
    SortDescMembers(a, AudioKey);
    AudioTiersShape(SortDesc(a, AudioKey));
  }

  /** After a successful classification each kind with a usable record has three tiers,
      each one the conversion of a usable record, and a kind without one has none. */
  lemma ClassifyTiers(raw: seq<RawFormat>)
    requires Classify(raw).Success?
    ensures var fs := Classify(raw).value;
      && fs.Formats?
      && ((exists i :: 0 <= i < |raw| && UsableVideo(raw[i])) ==> AllSome(fs.video))
      && ((forall i :: 0 <= i < |raw| ==> !UsableVideo(raw[i])) ==> AllNone(fs.video))
      && ((exists i :: 0 <= i < |raw| && UsableAudio(raw[i])) ==> AllSome(fs.audio))
      && ((forall i :: 0 <= i < |raw| ==> !UsableAudio(raw[i])) ==> AllNone(fs.audio))
      && TiersIn(fs.video, VideoCandidates(raw))
      && TiersIn(fs.audio, AudioCandidates(raw))
  {
    VideoCandidatesEmpty(raw);
    AudioCandidatesEmpty(raw);
    SortedVideoTiers(VideoCandidates(raw));
    SortedAudioTiers(AudioCandidates(raw));
  }

  /** With the list sorted, the high video tier is the first format, whose
      (height, bitrate) key no other format exceeds. */
  lemma VideoHighIsBest(v: seq<VideoFormat>)
    requires v != [] && SortedDesc(v, VideoKey)
    ensures VideoTiers(v).high == Some(v[0])
    ensures forall j :: 0 <= j < |v| ==> !KeyLess(VideoKey(v[0]), VideoKey(v[j]))
  {
    var p1080: VideoFormat -> bool := HeightAtLeast(1080);
    var p720: VideoFormat -> bool := HeightAtLeast(720);
    if Find(v, p1080).Some? {
      var i := Find(v, p1080).value;
      SortedDescMajor(v, VideoKey, 0, i);
    }
    if Find(v, p720).Some? {
      var i := Find(v, p720).value;
      SortedDescMajor(v, VideoKey, 0, i);
    }
    forall j | 0 < j < |v| ensures !KeyLess(VideoKey(v[0]), VideoKey(v[j])) {
    }
  }

  /** In a list sorted best first, `UnderCap` is the best format at most `cap` high;
      failing that, the best at most `fallback` high; failing that, the last one. */
  lemma UnderCapIsBest(v: seq<VideoFormat>, cap: int, fallback: int)
    requires v != [] && SortedDesc(v, VideoKey)
    ensures (exists j :: 0 <= j < |v| && v[j].height <= cap) ==> UnderCap(v, cap, fallback).height <= cap
    ensures forall j :: 0 <= j < |v| && v[j].height <= cap ==> !KeyLess(VideoKey(UnderCap(v, cap, fallback)), VideoKey(v[j]))
    ensures (forall j :: 0 <= j < |v| ==> v[j].height > cap) && (exists j :: 0 <= j < |v| && v[j].height <= fallback) ==>
      UnderCap(v, cap, fallback).height <= fallback
    ensures (forall j :: 0 <= j < |v| ==> v[j].height > cap) ==>
      forall j :: 0 <= j < |v| && v[j].height <= fallback ==> !KeyLess(VideoKey(UnderCap(v, cap, fallback)), VideoKey(v[j]))
    ensures (forall j :: 0 <= j < |v| ==> v[j].height > cap && v[j].height > fallback) ==> UnderCap(v, cap, fallback) == v[|v| - 1]
  {
    var atCap: VideoFormat -> bool := HeightAtMost(cap);
    var atFallback: VideoFormat -> bool := HeightAtMost(fallback);
    forall j | 0 <= j < |v| && v[j].height <= cap
      ensures !KeyLess(VideoKey(UnderCap(v, cap, fallback)), VideoKey(v[j]))
    {
      assert atCap(v[j]);
      FindIsBest(v, VideoKey, atCap, j);
    }
    if forall j :: 0 <= j < |v| ==> v[j].height > cap {
      forall j | 0 <= j < |v| && v[j].height <= fallback
        ensures !KeyLess(VideoKey(UnderCap(v, cap, fallback)), VideoKey(v[j]))
      {
        assert atFallback(v[j]);
        FindIsBest(v, VideoKey, atFallback, j);
      }
    }
  }

  /** The medium video tier is the best format at most 720 pixels high; failing that,
      the best at most 1080 high; failing that, the last, lowest one. */
  lemma VideoMediumIsBestUnderCap(v: seq<VideoFormat>)
    requires v != [] && SortedDesc(v, VideoKey)
    ensures var m := VideoTiers(v).medium.value;
      && ((exists j :: 0 <= j < |v| && v[j].height <= 720) ==>
            m.height <= 720 && forall j :: 0 <= j < |v| && v[j].height <= 720 ==> !KeyLess(VideoKey(m), VideoKey(v[j])))
      && ((forall j :: 0 <= j < |v| ==> v[j].height > 720) && (exists j :: 0 <= j < |v| && v[j].height <= 1080) ==>
            m.height <= 1080 && forall j :: 0 <= j < |v| && v[j].height <= 1080 ==> !KeyLess(VideoKey(m), VideoKey(v[j])))
      && ((forall j :: 0 <= j < |v| ==> v[j].height > 1080) ==> m == v[|v| - 1])
  {
    UnderCapIsBest(v, 720, 1080);
  }

  /** The low video tier is the best format at most 480 pixels high; failing that,
      the best at most 720 high; failing that, the last, lowest one. */
  lemma VideoLowIsBestUnderCap(v: seq<VideoFormat>)
    requires v != [] && SortedDesc(v, VideoKey)
    ensures var l := VideoTiers(v).low.value;
      && ((exists j :: 0 <= j < |v| && v[j].height <= 480) ==>
            l.height <= 480 && forall j :: 0 <= j < |v| && v[j].height <= 480 ==> !KeyLess(VideoKey(l), VideoKey(v[j])))
      && ((forall j :: 0 <= j < |v| ==> v[j].height > 480) && (exists j :: 0 <= j < |v| && v[j].height <= 720) ==>
            l.height <= 720 && forall j :: 0 <= j < |v| && v[j].height <= 720 ==> !KeyLess(VideoKey(l), VideoKey(v[j])))
      && ((forall j :: 0 <= j < |v| ==> v[j].height > 720) ==> l == v[|v| - 1])
  {
    UnderCapIsBest(v, 480, 720);
  }

  /** height(high) >= height(medium) >= height(low) */
  lemma VideoTierHeights(v: seq<VideoFormat>)
    requires v != [] && SortedDesc(v, VideoKey)
    ensures var t := VideoTiers(v);
      t.high.value.height >= t.medium.value.height >= t.low.value.height
  {
    var p480: VideoFormat -> bool := HeightAtMost(480);
    var p720: VideoFormat -> bool := HeightAtMost(720);
    var p1080: VideoFormat -> bool := HeightAtMost(1080);
    var last := |v| - 1;
    VideoHighIsBest(v);
    // The medium tier sits at index m, the low tier at an index at or after it.
    var m := match Find(v, p720)
      case Some(i) => i
      case None => (match Find(v, p1080) case Some(i) => i case None => last);
    var l := match Find(v, p480)
      case Some(i) => i
      case None => (match Find(v, p720) case Some(i) => i case None => last);
    assert VideoTiers(v).medium.value == v[m];
    assert VideoTiers(v).low.value == v[l];
    if Find(v, p480).Some? && Find(v, p720).Some? {
      assert p720(v[l]);
    }
    assert m <= l;
    SortedDescMajor(v, VideoKey, 0, m);
    SortedDescMajor(v, VideoKey, m, l);
  }

  /** With the list sorted, the high audio tier is the first format, with the greatest bitrate. */
  lemma AudioHighIsBest(a: seq<AudioFormat>)
    requires a != [] && SortedDesc(a, AudioKey)
    ensures AudioTiers(a).high == Some(a[0])
    ensures forall j :: 0 <= j < |a| ==> a[0].abr >= a[j].abr
  {
    var p256: AudioFormat -> bool := AbrAtLeast(256.0);
    if Find(a, p256).Some? {
      SortedDescMajor(a, AudioKey, 0, Find(a, p256).value);
    }
    forall j | 0 <= j < |a| ensures a[0].abr >= a[j].abr {
      SortedDescMajor(a, AudioKey, 0, j);
    }
  }

  /** The medium audio tier is the best format of 128 up to 256 kbps, else the high tier;
      the low one is the best of at most 128 kbps, else the medium tier. */
  lemma AudioLowerTiersAreBestInBand(a: seq<AudioFormat>)
    requires a != [] && SortedDesc(a, AudioKey)
    ensures var t := AudioTiers(a);
      && ((exists j :: 0 <= j < |a| && 128.0 <= a[j].abr < 256.0) ==>
            128.0 <= t.medium.value.abr < 256.0 &&
            forall j :: 0 <= j < |a| && 128.0 <= a[j].abr < 256.0 ==> t.medium.value.abr >= a[j].abr)
      && ((forall j :: 0 <= j < |a| ==> !(128.0 <= a[j].abr < 256.0)) ==> t.medium == t.high)
      && ((exists j :: 0 <= j < |a| && a[j].abr <= 128.0) ==>
            t.low.value.abr <= 128.0 &&
            forall j :: 0 <= j < |a| && a[j].abr <= 128.0 ==> t.low.value.abr >= a[j].abr)
      && ((forall j :: 0 <= j < |a| ==> a[j].abr > 128.0) ==> t.low == t.medium)
  {
    var band: AudioFormat -> bool := AbrIn(128.0, 256.0);
    var p128: AudioFormat -> bool := AbrAtMost(128.0);
    forall j | 0 <= j < |a| && 128.0 <= a[j].abr < 256.0
      ensures AudioTiers(a).medium.value.abr >= a[j].abr
    {
      assert band(a[j]);
      FindIsBest(a, AudioKey, band, j);
    }
    forall j | 0 <= j < |a| && a[j].abr <= 128.0
      ensures AudioTiers(a).low.value.abr >= a[j].abr
    {
      assert p128(a[j]);
      FindIsBest(a, AudioKey, p128, j);
    }
  }

  /** abr(high) >= abr(medium) >= abr(low) */
  lemma AudioTierBitrates(a: seq<AudioFormat>)
    requires a != [] && SortedDesc(a, AudioKey)
    ensures var t := AudioTiers(a);
      t.high.value.abr >= t.medium.value.abr >= t.low.value.abr
  {
    var band: AudioFormat -> bool := AbrIn(128.0, 256.0);
    var p128: AudioFormat -> bool := AbrAtMost(128.0);
    AudioHighIsBest(a);
    var m := match Find(a, band) case Some(i) => i case None => 0;
    var l := match Find(a, p128) case Some(i) => i case None => m;
    assert AudioTiers(a).medium.value == a[m];
    assert AudioTiers(a).low.value == a[l];
    if Find(a, p128).Some? && Find(a, band).Some? && l < m {
      SortedDescMajor(a, AudioKey, l, m);
      assert band(a[l]);
    }
    if m <= l {
      SortedDescMajor(a, AudioKey, m, l);
    }
  }

  /** The tiers of a successful classification keep both orderings. */
  lemma ClassifyTierOrder(raw: seq<RawFormat>)
    requires Classify(raw).Success?
    ensures var fs := Classify(raw).value;
      && (fs.video.high.Some? ==> fs.video.high.value.height >= fs.video.medium.value.height >= fs.video.low.value.height)
      && (fs.audio.high.Some? ==> fs.audio.high.value.abr >= fs.audio.medium.value.abr >= fs.audio.low.value.abr)
  {
    var sv := SortDesc(VideoCandidates(raw), VideoKey);
    var sa := SortDesc(AudioCandidates(raw), AudioKey);
    SortDescSorted(VideoCandidates(raw), VideoKey);
    SortDescSorted(AudioCandidates(raw), AudioKey);
    if sv != [] {
      VideoTierHeights(sv);
    }
    if sa != [] {
      AudioTierBitrates(sa);
    }
  }

  /** Three records: muxed 1080p at 4000 kbps, muxed 480p at 800 kbps, audio-only at 128 kbps. */
  function ExampleRecords(): seq<RawFormat> {
    [ RawFormat(Some("a"), None, None, Value("avc1"), Value("mp4a"), Some(1080), Some(4000.0), None, None, None),
      RawFormat(Some("b"), None, None, Value("avc1"), Value("mp4a"), Some(480), Some(800.0), None, None, None),
      RawFormat(Some("c"), None, None, Value("none"), Value("opus"), None, None, Some(128.0), None, None) ]
  }

  const Example1080 := VideoFormat("a", "mp4", 1080, 0, 4000.0, "")
  const Example480 := VideoFormat("b", "mp4", 480, 0, 800.0, "")
  const Example128 := AudioFormat("c", "mp3", 128.0, 0)

  /** Both muxed records enter the video list and the audio-only one the audio list,
      with the defaults of the missing fields filled in. */
  lemma ExampleCandidates()
    ensures VideoCandidates(ExampleRecords()) == [Example1080, Example480]
    ensures AudioCandidates(ExampleRecords()) == [Example128]
  {
    var raw := ExampleRecords();
    assert raw[..2][..1] == raw[..1] && raw[..1][..0] == [] && raw[..3] == raw;
    assert VideoCandidates(raw[..1]) == [Example1080];
    assert VideoCandidates(raw[..2]) == [Example1080, Example480];
    assert AudioCandidates(raw[..1]) == [];
    assert AudioCandidates(raw[..2]) == [];
  }

  /** Sorted best first, the 1080p entry is the high video tier and the 480p entry both
      lower ones, since it is the first at most 720 and at most 480 high; the single audio
      entry fills all three audio tiers. */
  lemma ExampleTiers()
    ensures VideoTiers(SortDesc([Example1080, Example480], VideoKey)) ==
      Tiers(Some(Example1080), Some(Example480), Some(Example480))
    ensures AudioTiers(SortDesc([Example128], AudioKey)) ==
      Tiers(Some(Example128), Some(Example128), Some(Example128))
  {
    var sv := [Example1080, Example480];
    assert SortDesc(sv[1..], VideoKey) == [Example480];
    assert SortDesc(sv, VideoKey) == sv;
    assert SortDesc([Example128], AudioKey) == [Example128];
    assert Find(sv, HeightAtMost(720)) == Some(1);
    assert Find(sv, HeightAtMost(480)) == Some(1);
    assert Find(sv, HeightAtLeast(1080)) == Some(0);
  }

  /** `process_formats` on the three example records. */
  lemma ExampleClassification()
    ensures Classify(ExampleRecords()) ==
      Success(Formats(Tiers(Some(Example1080), Some(Example480), Some(Example480)),
                      Tiers(Some(Example128), Some(Example128), Some(Example128))))
  {
    ExampleCandidates();
    ExampleTiers();
  }
}
