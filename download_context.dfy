/** `DownloadContext` (bot.py:620-791): what the bot remembers about one user's
    URL between the probe and the download. */
module Context {
  import opened Wrappers
  import opened Strings
  import opened Helpers
  import opened Lists
  import opened Classifier

  /** The parts of yt-dlp's info dictionary the context reads; `formats` is `None`
      when the key is absent. */
  datatype Info = Info(title: Field, vcodec: Field, acodec: Field, formats: Option<seq<RawFormat>>)

  const FailedToProcess := "Failed to process video information: "
  const NoFormatInformation := "No format information available"

  /** `remove_hashtags_mentions(info.get('title', 'Untitled'))`: a `null` title stays `None`. */
  function TitleOf(info: Info): Option<string> {
    match info.title
    case Missing => Some(RemoveHashtagsMentions("Untitled"))
    case Null => None
    case Value(t) => Some(RemoveHashtagsMentions(t))
  }

  /** `info.get(k) != 'none'`: an absent key reads as `None`, which is not `'none'`. */
  predicate Announces(f: Field) {
    f != Value("none")
  }

  /** What `update_from_info` raises, if anything. */
  function InfoOutcome(info: Info): Outcome<string> {
    match info.formats
    case None => Fail(FailedToProcess + NoFormatInformation)
    case Some(raw) =>
      match Classify(raw)
      case Success(_) => Pass
      case Failure(e) => Fail(FailedToProcess + e)
  }

  /** `update_from_info` fails exactly when the info has no format list or none of its
      records is usable as video or as audio. */
  lemma InfoOutcomeFails(info: Info)
    ensures InfoOutcome(info).Fail? <==>
      info.formats.None? ||
      forall i :: 0 <= i < |info.formats.value| ==> !UsableVideo(info.formats.value[i]) && !UsableAudio(info.formats.value[i])
  {
    if info.formats.Some? {
      ClassifyFails(info.formats.value);
    }
  }

  class DownloadContext {
    var url: Option<string>
    var info: Option<Info>
    var chatId: Option<int>
    var userId: Option<int>
    var messageId: Option<int>
    var title: Option<string>
    var isTiktok: bool
    var isYoutubeMusic: bool
    var hasVideo: bool
    var hasAudio: bool
    var formats: Formats

    /** `DownloadContext()`: everything unset. */
    constructor ()
      ensures url == None && info == None && chatId == None && userId == None && messageId == None && title == None
      ensures !isTiktok && !isYoutubeMusic && !hasVideo && !hasAudio && formats == NoFormats
    {
      url := None;
      info := None;
      chatId := None;
      userId := None;
      messageId := None;
      title := None;
      isTiktok := false;
      isYoutubeMusic := false;
      hasVideo := false;
      hasAudio := false;
      formats := NoFormats;
    }

    /** `process_formats(formats)`: on success `formats` holds the classification; when
        it raises, `formats` is left as it was. */
    method ProcessFormats(raw: seq<RawFormat>) returns (r: Outcome<string>)
      modifies this`formats
      ensures r.Pass? <==> Classify(raw).Success?
      ensures r.Pass? ==> formats == Classify(raw).value
      ensures r.Fail? ==> r.error == NoValidFormats && formats == old(formats)
    {
      var videoFormats: seq<VideoFormat> := [];
      var audioFormats: seq<AudioFormat> := [];
      for k := 0 to |raw|
        invariant videoFormats == VideoCandidates(raw[..k])
        invariant audioFormats == AudioCandidates(raw[..k])
      {
        var fmt := raw[k];
        assert raw[..k + 1][..k] == raw[..k];
        if HasStream(fmt.vcodec) && HasStream(fmt.acodec) {
          if Truthy(fmt.height) && fmt.tbr.Some? && fmt.tbr.value > 0.0 {
            videoFormats := videoFormats + [ToVideo(fmt)];
          }
        } else if HasStream(fmt.acodec) && !HasStream(fmt.vcodec) {
          if fmt.abr.Some? && fmt.abr.value != 0.0 {
            audioFormats := audioFormats + [ToAudio(fmt)];
          }
        }
      }
      assert raw[..|raw|] == raw;
      if videoFormats == [] && audioFormats == [] {
        return Fail(NoValidFormats);
      }
      videoFormats := SortDesc(videoFormats, VideoKey);
      audioFormats := SortDesc(audioFormats, AudioKey);
      formats := Formats(VideoTiers(videoFormats), AudioTiers(audioFormats));
      r := Pass;
    }

    /** `update_from_info(info)`: the title and stream flags are set first and stay set
        when the formats then fail; the error is re-raised with a prefix. */
    method UpdateFromInfo(i: Info) returns (r: Outcome<string>)
      modifies this`info, this`title, this`hasVideo, this`hasAudio, this`formats
      ensures info == Some(i) && title == TitleOf(i)
      ensures hasVideo == Announces(i.vcodec) && hasAudio == Announces(i.acodec)
      ensures r == InfoOutcome(i)
      ensures r.Pass? ==> formats == Classify(i.formats.value).value
      ensures r.Fail? ==> formats == old(formats)
    {
      info := Some(i);
      title := TitleOf(i);
      hasVideo := Announces(i.vcodec);
      hasAudio := Announces(i.acodec);
      if i.formats.None? {
        assert InfoOutcome(i) == Fail(FailedToProcess + NoFormatInformation);
        return Fail(FailedToProcess + NoFormatInformation);
      }
      var raw := i.formats.value;
      var outcome := ProcessFormats(raw);
      if outcome.Pass? {
        assert InfoOutcome(i) == Pass;
        r := Pass;
      } else {
        ClassifyFails(raw);
        assert InfoOutcome(i) == Fail(FailedToProcess + NoValidFormats);
        r := Fail(FailedToProcess + outcome.error);
      }
    }
  }
}
