/** The inline-keyboard protocol of `TelegramYTDLBot`: the callback data its menus
    carry (bot.py:245-249, 1493-1592), how `handle_callback_query` dispatches on it
    (bot.py:1112-1165), the yt-dlp format selector `download_media` builds from the
    chosen tier (bot.py:1271-1299), and the URL taken from a message
    (bot.py:1049-1062). */
module Callbacks {
  import opened Wrappers
  import opened Lists
  import opened Classifier

  datatype Kind = Video | Audio

  /** The `format_type` string of a kind. */
  function KindName(k: Kind): string {
    if k == Video then "video" else "audio"
  }

  const FormatPrefix := "format:"
  const VideoQualityPrefix := "vq:"
  const AudioQualityPrefix := "aq:"
  const CancelData := "cancel"
  const BackData := FormatPrefix + "back"

  function QualityPrefix(k: Kind): string {
    if k == Video then VideoQualityPrefix else AudioQualityPrefix
  }

  // ---------------------------------------------------------------------------
  // Dispatch
  // ---------------------------------------------------------------------------

  /** What `handle_callback_query` does with a payload once the session exists.
      `IgnoreFormat` is a `format:` payload other than back/video/audio, which
      falls through every branch and does nothing. */
  datatype Action =
    | ShowFormats
    | ChooseFormat(kind: Kind)
    | IgnoreFormat(rest: string)
    | PickQuality(kind: Kind, quality: string)
    | Cancel
    | Unknown

  /** The `if`/`elif` chain on the callback data. */
  function Route(data: string): (a: Action)
    ensures a.ShowFormats? <==> data == BackData
    ensures a.ChooseFormat? ==> data == FormatPrefix + KindName(a.kind)
    ensures a.IgnoreFormat? ==> data == FormatPrefix + a.rest
    ensures a.PickQuality? ==> data == QualityPrefix(a.kind) + a.quality
    ensures a.Cancel? <==> data == CancelData
    ensures a.Unknown? <==>
      !(FormatPrefix <= data) && !(VideoQualityPrefix <= data) && !(AudioQualityPrefix <= data) && data != CancelData
  {
    if FormatPrefix <= data then
      var rest := data[|FormatPrefix|..];
      assert data == FormatPrefix + rest;
      if rest == "back" then ShowFormats
      else if rest == "video" then ChooseFormat(Video)
      else if rest == "audio" then ChooseFormat(Audio)
      else IgnoreFormat(rest)
    else if VideoQualityPrefix <= data then
      assert data == VideoQualityPrefix + data[|VideoQualityPrefix|..];
      assert data[0] != CancelData[0];
      PickQuality(Video, data[|VideoQualityPrefix|..])
    else if AudioQualityPrefix <= data then
      assert data == AudioQualityPrefix + data[|AudioQualityPrefix|..];
      assert data[0] != CancelData[0];
      PickQuality(Audio, data[|AudioQualityPrefix|..])
    else if data == CancelData then Cancel
    else Unknown
  }

  /** The callback data that asks for an action. */
  function Payload(a: Action): string {
    match a
    case ShowFormats => BackData
    case ChooseFormat(k) => FormatPrefix + KindName(k)
    case IgnoreFormat(rest) => FormatPrefix + rest
    case PickQuality(k, q) => QualityPrefix(k) + q
    case Cancel => CancelData
    case Unknown => ""
  }

  /** Every action has a payload that is dispatched to it, except a `format:` payload
      whose rest is one of the three reserved words. */
  lemma RouteOfPayload(a: Action)
    requires a.IgnoreFormat? ==> a.rest != "back" && a.rest != "video" && a.rest != "audio"
    ensures Route(Payload(a)) == a
  {
    var data := Payload(a);
    match a
    case ShowFormats =>
    case ChooseFormat(k) =>
      assert data[|FormatPrefix|..] == KindName(k);
    case IgnoreFormat(rest) =>
      assert data[|FormatPrefix|..] == rest;
    case PickQuality(k, q) =>
      assert data[|QualityPrefix(k)|..] == q;
      assert !(FormatPrefix <= data) by {
        assert data[0] != FormatPrefix[0];
      }
      if k == Audio {
        assert !(VideoQualityPrefix <= data) by {
          assert data[0] != VideoQualityPrefix[0];
        }
      }
    case Cancel =>
    case Unknown =>
  }

  /** Conversely, every payload that is dispatched somewhere is that action's payload. */
  lemma PayloadOfRoute(data: string)
    requires !Route(data).Unknown?
    ensures Payload(Route(data)) == data
  {
  }

  // ---------------------------------------------------------------------------
  // Menus, as the callback data of their buttons, one list per keyboard row
  // ---------------------------------------------------------------------------

  /** The keyboard of `show_format_options`. */
  function FormatMenu(hasVideo: bool, hasAudio: bool): (rows: seq<seq<string>>)
    ensures |rows| == (if hasVideo then 1 else 0) + (if hasAudio then 1 else 0) + 1
    ensures rows[|rows| - 1] == [CancelData]
    ensures [Payload(ChooseFormat(Video))] in rows <==> hasVideo
    ensures [Payload(ChooseFormat(Audio))] in rows <==> hasAudio
    ensures hasVideo ==> rows[0] == [Payload(ChooseFormat(Video))]
  {
    assert (FormatPrefix + "video")[7] != (FormatPrefix + "audio")[7];
    (if hasVideo then [[FormatPrefix + "video"]] else [])
    + (if hasAudio then [[FormatPrefix + "audio"]] else [])
    + [[CancelData]]
  }

  /** Every button of the format menu is dispatched to choosing a kind or to cancelling. */
  lemma FormatMenuRoutes(hasVideo: bool, hasAudio: bool, i: int)
    requires 0 <= i < |FormatMenu(hasVideo, hasAudio)|
    ensures var row := FormatMenu(hasVideo, hasAudio)[i];
      |row| == 1 && (Route(row[0]).ChooseFormat? || Route(row[0]).Cancel?)
  {
    var rows := FormatMenu(hasVideo, hasAudio);
    RouteOfPayload(ChooseFormat(Video));
    RouteOfPayload(ChooseFormat(Audio));
    assert rows[i] in rows;
  }

  const Qualities := ["high", "medium", "low"]

  /** `tiers[quality]`, `None` for an empty slot or a key the dictionary lacks. */
  function Slot<T>(t: Tiers<T>, quality: string): (r: Option<T>)
    ensures r.Some? ==> quality in Qualities
  {
    if quality == "high" then t.high
    else if quality == "medium" then t.medium
    else if quality == "low" then t.low
    else None
  }

  /** The chosen kind has a format in that tier. */
  predicate Offered(formats: Formats, kind: Kind, quality: string)
    requires formats.Formats?
  {
    if kind == Video then Slot(formats.video, quality).Some? else Slot(formats.audio, quality).Some?
  }

  /** The quality rows for the given qualities, in their order. */
  function QualityButtons(formats: Formats, kind: Kind, qualities: seq<string>): seq<seq<string>>
    requires formats.Formats?
  {
    if qualities == [] then []
    else
      var q := qualities[|qualities| - 1];
      QualityButtons(formats, kind, qualities[..|qualities| - 1]) + (if Offered(formats, kind, q) then [[QualityPrefix(kind) + q]] else [])
  }

  /** Every quality row names an offered quality of the list, and every offered quality
      of the list has a row. */
  lemma {:induction false} QualityButtonsFacts(formats: Formats, kind: Kind, qualities: seq<string>)
    requires formats.Formats?
    ensures forall i :: 0 <= i < |QualityButtons(formats, kind, qualities)| ==>
      exists q :: q in qualities && Offered(formats, kind, q) && QualityButtons(formats, kind, qualities)[i] == [QualityPrefix(kind) + q]
    ensures forall q :: q in qualities && Offered(formats, kind, q) ==> [QualityPrefix(kind) + q] in QualityButtons(formats, kind, qualities)
  {
    if qualities == [] {
      assert QualityButtons(formats, kind, qualities) == [];
    } else {
      var q := qualities[|qualities| - 1];
      var init := qualities[..|qualities| - 1];
      var before := QualityButtons(formats, kind, init);
      var rows := QualityButtons(formats, kind, qualities);
      QualityButtonsFacts(formats, kind, init);
      assert forall i :: 0 <= i < |before| ==> exists x :: x in init && Offered(formats, kind, x) && before[i] == [QualityPrefix(kind) + x];
      assert forall x :: x in init ==> x in qualities;
      assert forall x :: x in qualities ==> x in init || x == q;
      forall i | 0 <= i < |rows|
        ensures exists x :: x in qualities && Offered(formats, kind, x) && rows[i] == [QualityPrefix(kind) + x]
      {
        assert rows == before + (if Offered(formats, kind, q) then [[QualityPrefix(kind) + q]] else []);
        if i < |before| {
          var x :| x in init && Offered(formats, kind, x) && before[i] == [QualityPrefix(kind) + x];
          assert x in qualities && rows[i] == before[i];
        } else {
          assert q in qualities && Offered(formats, kind, q) && rows[i] == [QualityPrefix(kind) + q];
        }
      }
    }
  }

  /** The keyboard of `show_quality_options`: one row per filled tier, then back and
      cancel. `context.formats[format_type]` raises `KeyError` while no
      classification has succeeded. */
  method QualityKeyboard(formats: Formats, kind: Kind) returns (r: Result<seq<seq<string>>, string>)
    ensures formats.NoFormats? ==> r == Failure(KindName(kind))
    ensures formats.Formats? ==> r == Success(QualityButtons(formats, kind, Qualities) + [[BackData, CancelData]])
  {
    if formats.NoFormats? {
      return Failure(KindName(kind));
    }
    var rows: seq<seq<string>> := [];
    for k := 0 to |Qualities|
      invariant rows == QualityButtons(formats, kind, Qualities[..k])
    {
      var quality := Qualities[k];
      assert Qualities[..k + 1][..k] == Qualities[..k];
      var fmt := if kind == Video then Slot(formats.video, quality).Some? else Slot(formats.audio, quality).Some?;
      if fmt {
        rows := rows + [[QualityPrefix(kind) + quality]];
      }
    }
    assert Qualities[..|Qualities|] == Qualities;
    rows := rows + [[BackData, CancelData]];
    return Success(rows);
  }

  /** Each quality button asks to download a tier that is filled, and each filled
      tier has a button. */
  lemma QualityButtonsRoute(formats: Formats, kind: Kind, i: int)
    requires formats.Formats?
    requires 0 <= i < |QualityButtons(formats, kind, Qualities)|
    ensures var row := QualityButtons(formats, kind, Qualities)[i];
      |row| == 1 && Route(row[0]).PickQuality? && Route(row[0]).kind == kind &&
      Offered(formats, kind, Route(row[0]).quality)
  {
    var row := QualityButtons(formats, kind, Qualities)[i];
    QualityButtonsFacts(formats, kind, Qualities);
    var q :| q in Qualities && Offered(formats, kind, q) && row == [QualityPrefix(kind) + q];
    RouteOfPayload(PickQuality(kind, q));
  }

  // ---------------------------------------------------------------------------
  // The format selector of download_media
  // ---------------------------------------------------------------------------

  const DefaultVideoFormat := "18"
  const MergeBestAudio := "+bestaudio/best"
  const AudioSelector := "bestaudio/best"

  /** The `format_id` of the chosen tier, `""` where there is none. */
  function TierFormatId(formats: Formats, kind: Kind, quality: string): string {
    if formats.NoFormats? then ""
    else if kind == Video then
      match Slot(formats.video, quality)
      case Some(f) => f.formatId
      case None => ""
    else
      match Slot(formats.audio, quality)
      case Some(f) => f.formatId
      case None => ""
  }

  /** `ydl_opts['format']`: the tier's format merged with the best audio, format 18
      when the tier gives no id, and the best audio alone for audio. */
  function Selector(formats: Formats, kind: Kind, quality: string): (sel: string)
    ensures kind == Audio ==> sel == AudioSelector
    ensures kind == Video && (formats.NoFormats? || Slot(formats.video, quality).None?) ==>
      sel == DefaultVideoFormat + MergeBestAudio
    ensures kind == Video && formats.Formats? && Slot(formats.video, quality).Some? ==>
      var id := Slot(formats.video, quality).value.formatId;
      sel == (if id == "" then DefaultVideoFormat else id) + MergeBestAudio
  {
    if kind == Video then
      var id := TierFormatId(formats, kind, quality);
      (if id == "" then DefaultVideoFormat else id) + MergeBestAudio
    else AudioSelector
  }

  /** Choosing the high video tier after a successful classification asks yt-dlp for
      the usable record with the greatest (height, bitrate). */
  lemma HighSelectorIsBest(raw: seq<RawFormat>)
    requires Classify(raw).Success?
    requires exists i :: 0 <= i < |raw| && UsableVideo(raw[i])
    ensures var v := SortDesc(VideoCandidates(raw), VideoKey);
      && v != []
      && (forall j :: 0 <= j < |v| ==> !KeyLess(VideoKey(v[0]), VideoKey(v[j])))
      && (v[0].formatId != "" ==> Selector(Classify(raw).value, Video, "high") == v[0].formatId + MergeBestAudio)
  {
    var v := SortDesc(VideoCandidates(raw), VideoKey);
    VideoCandidatesEmpty(raw);
    SortDescMembers(VideoCandidates(raw), VideoKey);
    SortDescSorted(VideoCandidates(raw), VideoKey);
    VideoHighIsBest(v);
  }

  // ---------------------------------------------------------------------------
  // Releasing a session when a download ends
  // ---------------------------------------------------------------------------

  /** How far a download got: failing before `downloaded_file` is bound
      (bot.py:1319), failing after it, or delivering the file. */
  datatype DownloadRun = FailedBeforeFile | FailedAfterFile | Delivered

  /** The `finally` of `download_media` as written (bot.py:1411-1429): its first line
      reads `downloaded_file`, so a failure before that name is bound raises inside the
      cleanup `try`, the error is logged, and `del self.download_contexts[user_id]` is
      skipped; otherwise the entry under the user id goes, whichever session it is. */
  function ReleaseAsWritten<K, V>(contexts: map<K, V>, userId: K, run: DownloadRun): (r: map<K, V>)
    ensures run.FailedBeforeFile? ==> r == contexts
    ensures !run.FailedBeforeFile? ==> userId !in r
    ensures forall k :: k in r ==> k in contexts && r[k] == contexts[k]
    ensures forall k :: k in contexts && k != userId ==> k in r
  {
    if run.FailedBeforeFile? then contexts else contexts - {userId}
  }

  /** A download that fails early leaves its finished session in the map. */
  lemma SessionLeaksAsWritten<K, V>(contexts: map<K, V>, userId: K, ctx: V)
    requires userId in contexts && contexts[userId] == ctx
    ensures userId in ReleaseAsWritten(contexts, userId, FailedBeforeFile)
    ensures ReleaseAsWritten(contexts, userId, FailedBeforeFile)[userId] == ctx
  {
  }

  /** A download that finishes after the user sent a new URL removes the new session. */
  lemma NewerSessionDroppedAsWritten<K, V>(contexts: map<K, V>, userId: K, older: V)
    requires userId in contexts && contexts[userId] != older
    ensures userId !in ReleaseAsWritten(contexts, userId, Delivered)
  {
  }

  /** The release the cleanup evidently intends: the finished session leaves the map on
      every outcome, and only if it is still the user's current one. */
  function Release<K, V(==)>(contexts: map<K, V>, userId: K, ctx: V): (r: map<K, V>)
    ensures userId !in r || r[userId] != ctx
    ensures forall k :: k in r ==> k in contexts && r[k] == contexts[k]
    ensures forall k :: k in contexts && k != userId ==> k in r
    ensures userId in contexts && contexts[userId] != ctx ==> r == contexts
  {
    if userId in contexts && contexts[userId] == ctx then contexts - {userId} else contexts
  }

  /** Under the intended release, neither of the two outcomes above happens. */
  lemma ReleaseFixesBoth<K, V>(contexts: map<K, V>, userId: K, ctx: V)
    requires userId in contexts
    ensures contexts[userId] == ctx ==> userId !in Release(contexts, userId, ctx)
    ensures contexts[userId] != ctx ==>
      (userId in Release(contexts, userId, ctx) && Release(contexts, userId, ctx)[userId] == contexts[userId])
  {
  }

  // ---------------------------------------------------------------------------
  // The URL of a message
  // ---------------------------------------------------------------------------

  /** A Telegram message entity; offsets are positions in the text. */
  datatype MessageEntity = MessageEntity(kind: string, offset: nat, length: nat)

  predicate IsUrlEntity(e: MessageEntity) {
    e.kind == "url"
  }

  /** Python's `text[start:stop]` for non-negative bounds: both are clamped to the
      text, and a reversed range is empty. */
  function Slice(text: string, start: nat, stop: nat): (r: string)
    ensures start <= stop <= |text| ==> r == text[start..stop]
    ensures |text| <= start || stop <= start ==> r == []
    ensures |r| <= |text| && |r| <= stop
  {
    var a := if start < |text| then start else |text|;
    var b := if stop < |text| then stop else |text|;
    if b <= a then [] else text[a..b]
  }

  /** The text of the first `url` entity, if the message has one. */
  function MessageUrl(text: string, entities: seq<MessageEntity>): (r: Option<string>)
    ensures r.None? <==> forall i :: 0 <= i < |entities| ==> !IsUrlEntity(entities[i])
    ensures r.Some? ==>
      exists i :: (0 <= i < |entities| && IsUrlEntity(entities[i]) &&
        (forall j :: 0 <= j < i ==> !IsUrlEntity(entities[j])) &&
        r.value == Slice(text, entities[i].offset, entities[i].offset + entities[i].length))
  {
    match Find(entities, IsUrlEntity)
    case Some(i) => Some(Slice(text, entities[i].offset, entities[i].offset + entities[i].length))
    case None => None
  }

  /** The loop of `handle_url_message` that stops at the first `url` entity. */
  method ExtractUrl(text: string, entities: seq<MessageEntity>) returns (url: Option<string>)
    ensures url == MessageUrl(text, entities)
  {
    url := None;
    var k := 0;
    while k < |entities|
      invariant 0 <= k <= |entities| && url == None
      invariant forall j :: 0 <= j < k ==> !IsUrlEntity(entities[j])
    {
      var entity := entities[k];
      if entity.kind == "url" {
        FindFirst(entities, IsUrlEntity, k);
        url := Some(Slice(text, entity.offset, entity.offset + entity.length));
        break;
      }
      k := k + 1;
    }
  }
}
