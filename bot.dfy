/** The per-user session map of `TelegramYTDLBot` and the handlers that change it:
    `handle_url_message` (bot.py:1045-1086), `process_url` (bot.py:1430-1491),
    `handle_callback_query` (bot.py:1088-1165) and the end of `download_media`
    (bot.py:1411-1429). Telegram and yt-dlp are outside the model: what they would
    return arrives as a parameter, and what the bot would send comes back as a reply. */
module TelegramBot {
  import opened Wrappers
  import opened Strings
  import opened Classifier
  import opened Context
  import opened Environment
  import opened Preferences
  import opened WorkQueue
  import opened Callbacks

  /** `lambda: self.process_url(url, context)`, as queued. */
  datatype Job = ProcessUrlJob(url: string, context: DownloadContext)

  /** What `handle_url_message` answers. */
  datatype UrlReply = Denied | UrlReminder | Processing(context: DownloadContext)

  /** What `handle_callback_query` answers; `Escaped` is an exception leaving it. */
  datatype CallbackReply =
    | SessionExpired
    | Keyboard(rows: seq<seq<string>>)
    | Escaped(error: string)
    | StartDownload(context: DownloadContext, selector: string)
    | Canceled
    | UnknownOption
    | NoReply

  const PreferredFormat := "preferred_format"

  /** The preference a quality choice is stored under. */
  function QualityPreference(k: Kind): string {
    if k == Video then "preferred_video_quality" else "preferred_audio_quality"
  }

  /** The session `handle_url_message` creates for a URL: everything else unset. */
  method NewSession(url: string, userId: int, chatId: int, processingMessageId: int) returns (ctx: DownloadContext)
    ensures fresh(ctx)
    ensures ctx.url == Some(url) && ctx.userId == Some(userId) && ctx.chatId == Some(chatId)
    ensures ctx.messageId == Some(processingMessageId)
    ensures ctx.isTiktok == Contains(url, "tiktok.com")
    ensures ctx.isYoutubeMusic == Contains(url, "music.youtube.com")
    ensures ctx.info == None && ctx.formats == NoFormats
    ensures ctx.title == None && !ctx.hasVideo && !ctx.hasAudio
  {
    ctx := new DownloadContext();
    ctx.url := Some(url);
    ctx.chatId := Some(chatId);
    ctx.userId := Some(userId);
    ctx.messageId := Some(processingMessageId);
    ctx.isTiktok := Contains(url, "tiktok.com");
    ctx.isYoutubeMusic := Contains(url, "music.youtube.com");
  }

  class Bot {
    var downloadContexts: map<int, DownloadContext>
    const whitelist: seq<int>
    const prefs: UserPreferences
    const queue: Queue<Job>

    /** Every session is filed under the user it was created for. */
    predicate Keyed()
      reads this, downloadContexts.Values
    {
      forall u :: u in downloadContexts ==> downloadContexts[u].userId == Some(u)
    }

    constructor (whitelist: seq<int>, prefs: UserPreferences, queue: Queue<Job>)
      ensures this.whitelist == whitelist && this.prefs == prefs && this.queue == queue
      ensures downloadContexts == map[] && Keyed()
    {
      this.whitelist := whitelist;
      this.prefs := prefs;
      this.queue := queue;
      downloadContexts := map[];
    }

    /** A message with a URL entity. A user off the whitelist is turned away; a message
        whose first `url` entity is missing or empty gets the reminder; otherwise a new
        session replaces the user's previous one and probing the URL is queued. */
    method HandleUrlMessage(userId: int, chatId: int, text: string, entities: seq<MessageEntity>,
                            processingMessageId: int) returns (reply: UrlReply)
      requires Keyed()
      modifies this`downloadContexts, queue`queue
      ensures Keyed()
      ensures !IsWhitelisted(whitelist, userId) ==> reply == Denied
      ensures IsWhitelisted(whitelist, userId) && (MessageUrl(text, entities).None? || MessageUrl(text, entities) == Some("")) ==>
        reply == UrlReminder
      ensures IsWhitelisted(whitelist, userId) && MessageUrl(text, entities).Some? && MessageUrl(text, entities).value != "" ==>
        reply.Processing?
      ensures !reply.Processing? ==> downloadContexts == old(downloadContexts) && queue.queue == old(queue.queue)
      ensures reply.Processing? ==>
        var ctx := reply.context;
        var url := MessageUrl(text, entities);
        && IsWhitelisted(whitelist, userId) && url.Some? && url.value != ""
        && fresh(ctx)
        && downloadContexts == old(downloadContexts)[userId := ctx]
        && queue.queue == old(queue.queue) + [Executor(ProcessUrlJob(url.value, ctx))]
        && ctx.url == url && ctx.userId == Some(userId) && ctx.chatId == Some(chatId)
        && ctx.messageId == Some(processingMessageId)
        && ctx.isTiktok == Contains(url.value, "tiktok.com")
        && ctx.isYoutubeMusic == Contains(url.value, "music.youtube.com")
        && ctx.info == None && ctx.formats == NoFormats
        && ctx.title == None && !ctx.hasVideo && !ctx.hasAudio
      ensures queue.running == old(queue.running)
    {
      if !IsWhitelisted(whitelist, userId) {
        return Denied;
      }
      var url := ExtractUrl(text, entities);
      if url.None? || url.value == "" {
        return UrlReminder;
      }
      var ctx := NewSession(url.value, userId, chatId, processingMessageId);
      downloadContexts := downloadContexts[userId := ctx];
      queue.Add(Executor(ProcessUrlJob(url.value, ctx)));
      reply := Processing(ctx);
    }

    /** `process_url`, with yt-dlp's probe given as `probe`. The session is updated from
        the info and the format menu is shown; any error is reported to the user, and in
        no case does the session leave the map. */
    method ProcessUrl(ctx: DownloadContext, probe: Result<Info, string>) returns (reply: Result<seq<seq<string>>, string>)
      requires Keyed()
      modifies ctx`info, ctx`title, ctx`hasVideo, ctx`hasAudio, ctx`formats
      ensures Keyed()
      ensures probe.Failure? ==>
        && reply == Failure(probe.error) && ctx.info == old(ctx.info) && ctx.formats == old(ctx.formats)
        && ctx.title == old(ctx.title) && ctx.hasVideo == old(ctx.hasVideo) && ctx.hasAudio == old(ctx.hasAudio)
      ensures probe.Success? && InfoOutcome(probe.value).Pass? ==> ctx.formats == Classify(probe.value.formats.value).value
      ensures probe.Success? && InfoOutcome(probe.value).Fail? ==> ctx.formats == old(ctx.formats)
      ensures probe.Success? ==>
        && ctx.info == Some(probe.value) && ctx.title == TitleOf(probe.value)
        && ctx.hasVideo == Announces(probe.value.vcodec) && ctx.hasAudio == Announces(probe.value.acodec)
        && (reply.Success? <==> InfoOutcome(probe.value).Pass?)
        && (reply.Success? ==> reply.value == FormatMenu(ctx.hasVideo, ctx.hasAudio))
        && (reply.Failure? ==> reply.error == InfoOutcome(probe.value).error)
    {
      if probe.Failure? {
        return Failure(probe.error);
      }
      var outcome := ctx.UpdateFromInfo(probe.value);
      if outcome.Fail? {
        return Failure(outcome.error);
      }
      reply := Success(FormatMenu(ctx.hasVideo, ctx.hasAudio));
    }

    /** A button press. Without a session the user is told it expired; otherwise the
        payload is dispatched: menus are redrawn, a kind or quality choice is remembered
        as a preference, a quality choice starts the download with the selector for that
        tier, and cancel ends the session. */
    method HandleCallbackQuery(userId: int, data: string) returns (reply: CallbackReply)
      requires Keyed()
      modifies this, prefs
      ensures Keyed()
      ensures userId !in old(downloadContexts) ==>
        reply == SessionExpired && downloadContexts == old(downloadContexts) && prefs.preferences == old(prefs.preferences)
      ensures userId in old(downloadContexts) ==>
        var ctx := old(downloadContexts)[userId];
        var action := Route(data);
        && (action.Cancel? ==> downloadContexts == old(downloadContexts) - {userId} && reply == Canceled)
        && (!action.Cancel? ==> downloadContexts == old(downloadContexts))
        && (action.ChooseFormat? ==> prefs.preferences == Store(old(prefs.preferences), userId, PreferredFormat, KindName(action.kind)))
        && (action.PickQuality? ==> prefs.preferences == Store(old(prefs.preferences), userId, QualityPreference(action.kind), action.quality))
        && (!action.ChooseFormat? && !action.PickQuality? ==> prefs.preferences == old(prefs.preferences))
        && (action.ShowFormats? ==> reply == Keyboard(FormatMenu(ctx.hasVideo, ctx.hasAudio)))
        && (action.ChooseFormat? && ctx.formats.NoFormats? ==> reply == Escaped(KindName(action.kind)))
        && (action.ChooseFormat? && ctx.formats.Formats? ==>
              reply == Keyboard(QualityButtons(ctx.formats, action.kind, Qualities) + [[BackData, CancelData]]))
        && (action.IgnoreFormat? ==> reply == NoReply)
        && (action.PickQuality? ==> reply == StartDownload(ctx, Selector(ctx.formats, action.kind, action.quality)))
        && (action.Unknown? ==> reply == UnknownOption)
    {
      if userId !in downloadContexts {
        return SessionExpired;
      }
      var ctx := downloadContexts[userId];
      var action := Route(data);
      match action
      case ShowFormats =>
        reply := Keyboard(FormatMenu(ctx.hasVideo, ctx.hasAudio));
      case ChooseFormat(kind) =>
        prefs.SetUserPreference(userId, PreferredFormat, KindName(kind));
        var menu := QualityKeyboard(ctx.formats, kind);
        reply := match menu
          case Success(rows) => Keyboard(rows)
          case Failure(e) => Escaped(e);
      case IgnoreFormat(_) =>
        reply := NoReply;
      case PickQuality(kind, quality) =>
        prefs.SetUserPreference(userId, QualityPreference(kind), quality);
        reply := StartDownload(ctx, Selector(ctx.formats, kind, quality));
      case Cancel =>
        downloadContexts := downloadContexts - {userId};
        reply := Canceled;
      case Unknown =>
        reply := UnknownOption;
    }

    /** The end of a download as written: a failure before the file is found skips the
        deletion, and otherwise the entry under the session's user id goes, whichever
        session it holds. */
    method FinishDownloadAsWritten(ctx: DownloadContext, run: DownloadRun)
      requires Keyed()
      modifies this`downloadContexts
      ensures Keyed()
      ensures ctx.userId.Some? ==> downloadContexts == ReleaseAsWritten(old(downloadContexts), ctx.userId.value, run)
      ensures ctx.userId.None? || run.FailedBeforeFile? ==> downloadContexts == old(downloadContexts)
    {
      if ctx.userId.Some? {
        downloadContexts := ReleaseAsWritten(downloadContexts, ctx.userId.value, run);
      }
    }

    /** The end of a download: its session leaves the map, unless the user has started
        a newer one meanwhile, which stays. */
    method FinishDownload(ctx: DownloadContext)
      requires Keyed()
      modifies this`downloadContexts
      ensures Keyed()
      ensures ctx.userId.Some? ==> downloadContexts == Release(old(downloadContexts), ctx.userId.value, ctx)
      ensures ctx.userId.None? ==> downloadContexts == old(downloadContexts)
      ensures ctx !in downloadContexts.Values
    {
      ghost var before := downloadContexts;
      if ctx.userId.Some? {
        downloadContexts := Release(downloadContexts, ctx.userId.value, ctx);
      }
      forall u | u in downloadContexts
        ensures downloadContexts[u] != ctx
      {
        assert u in before && downloadContexts[u] == before[u];
        assert before[u].userId == Some(u);
      }
    }
  }
}
