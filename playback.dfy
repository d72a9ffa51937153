/**
 * The playback rules of the browser client (static/js/main.js): how the
 * settings are loaded, which voice the browser speaks with, which engine
 * `playAudio` uses, and how a reply of the server endpoint is read.
 *
 * Browser facts (speech support, the voice list, the fetch result) are
 * parameters; timers and callbacks are not modelled.
 */
module Playback {
  import opened Wrappers
  import opened TtsSettings
  import opened SpeechCache

  // ---------------------------------------------------------------------
  // Settings on the client (main.js:21-53)
  // ---------------------------------------------------------------------

  /** The settings the client falls back to (main.js:31-38, main.js:44-51). */
  function ClientDefaults(): ConfigJson
  {
    ConfigJson("auto", 8, 0.8, 1.0, 1.0, "")
  }

  /** The client's defaults are the JSON of the row the server creates lazily (app.py:109-116). */
  lemma ClientDefaultsMatchServer(now: int)
    ensures ClientDefaults() == ToJson(Defaults(now))
  {
  }

  /** What `fetch('/api/tts-config')` gave: a network or parse failure, or a reply. */
  datatype ConfigFetch = FetchFailed | Replied(success: bool, config: ConfigJson)

  /** The settings `loadTTSConfig` stores (main.js:22-53): the server's on success, else the defaults. */
  function LoadedConfig(f: ConfigFetch): ConfigJson
  {
    if f.Replied? && f.success then f.config else ClientDefaults()
  }

  /** A successful reply is taken as it is; anything else gives the same settings as a fresh server row. */
  lemma LoadedConfigMeaning(f: ConfigFetch, now: int)
    ensures f.Replied? && f.success ==> LoadedConfig(f) == f.config
    ensures !(f.Replied? && f.success) ==> LoadedConfig(f) == ToJson(Defaults(now))
  {
  }

  /** The page state `window.globalTTSConfig`, null until the settings are loaded. */
  class ClientState {
    var config: Option<ConfigJson>

    /** The page starts with no settings (main.js:4). */
    constructor ()
      ensures config == None
    {
      config := None;
    }

    /** `loadTTSConfig()` once its fetch has settled (main.js:22-53). */
    method LoadTtsConfig(f: ConfigFetch)
      modifies this
      ensures config == Some(LoadedConfig(f))
    {
      if f.Replied? && f.success {
        config := Some(f.config);
      } else {
        config := Some(ClientDefaults());
      }
    }
  }

  // ---------------------------------------------------------------------
  // Browser speech (main.js:61-152)
  // ---------------------------------------------------------------------

  /** A `SpeechSynthesisVoice`: its `name`, `lang` and `default`. */
  datatype Voice = Voice(name: string, lang: string, isDefault: bool)

  /** `voice.lang.startsWith('en')`. */
  predicate IsEnglish(v: Voice) {
    "en" <= v.lang
  }

  predicate IsEnglishDefault(v: Voice) {
    IsEnglish(v) && v.isDefault
  }

  /** The index `voices.find(p)` returns the element of, or none. */
  function FindFirst(vs: seq<Voice>, p: Voice -> bool): (r: Option<nat>)
    ensures r.Some? ==> r.value < |vs| && p(vs[r.value])
    ensures r.Some? ==> forall j :: 0 <= j < r.value ==> !p(vs[j])
    ensures r.None? ==> forall j :: 0 <= j < |vs| ==> !p(vs[j])
  {
    if vs == [] then None
    else if p(vs[0]) then Some(0)
    else
      var r := FindFirst(vs[1..], p);
      assert forall j :: 1 <= j < |vs| ==> vs[j] == vs[1..][j - 1];
      if r.Some? then Some(r.value + 1) else None
  }

  /** The preferred voice's name, when settings are loaded and name one. */
  function PreferredName(config: Option<ConfigJson>): Option<string>
  {
    if config.Some? && config.value.preferredVoice != "" then Some(config.value.preferredVoice) else None
  }

  /**
   * The voice `selectVoiceAndSpeak` picks (main.js:92-123; the copies at
   * main.js:359-388 and main.js:501-530 are the same rule): the first voice
   * with the preferred name, else the first default English voice, else the
   * first English voice, else none.
   */
  function SelectVoice(vs: seq<Voice>, config: Option<ConfigJson>): (r: Option<nat>)
    ensures r.Some? ==> r.value < |vs|
    ensures r.Some? ==> IsEnglish(vs[r.value]) || PreferredName(config) == Some(vs[r.value].name)
  {
    var byName := if PreferredName(config).Some? then FindFirst(vs, (v: Voice) => v.name == PreferredName(config).value) else None;
    if byName.Some? then byName
    else
      var d := FindFirst(vs, IsEnglishDefault);
      if d.Some? then d else FindFirst(vs, IsEnglish)
  }

  /** A named preference that some voice has wins: the first voice of that name is chosen (main.js:99-100). */
  lemma SelectVoicePreferred(vs: seq<Voice>, config: Option<ConfigJson>, i: nat)
    requires PreferredName(config).Some?
    requires i < |vs| && vs[i].name == PreferredName(config).value
    ensures var r := SelectVoice(vs, config);
            r.Some? && r.value <= i && vs[r.value].name == PreferredName(config).value
            && forall j :: 0 <= j < r.value ==> vs[j].name != PreferredName(config).value
  {
    var p := (v: Voice) => v.name == PreferredName(config).value;
    assert p(vs[i]);
    var r := FindFirst(vs, p);
  }

  /**
   * Without a matching preferred name the choice is the first default English
   * voice, or, when there is none, the first English voice, or none when no
   * voice is English (main.js:109-114).
   */
  lemma SelectVoiceFallback(vs: seq<Voice>, config: Option<ConfigJson>)
    requires PreferredName(config).None? ||
             forall j :: 0 <= j < |vs| ==> vs[j].name != PreferredName(config).value
    ensures var r := SelectVoice(vs, config);
            && (r.Some? ==> r.value < |vs| && IsEnglish(vs[r.value]))
            && (r.Some? && !vs[r.value].isDefault ==> forall j :: 0 <= j < |vs| ==> !IsEnglishDefault(vs[j]))
            && (r.Some? && vs[r.value].isDefault ==> forall j :: 0 <= j < r.value ==> !IsEnglishDefault(vs[j]))
            && (r.Some? && !vs[r.value].isDefault ==> forall j :: 0 <= j < r.value ==> !IsEnglish(vs[j]))
            && (r.None? <==> forall j :: 0 <= j < |vs| ==> !IsEnglish(vs[j]))
  {
    if PreferredName(config).Some? {
      var p := (v: Voice) => v.name == PreferredName(config).value;
      assert forall j :: 0 <= j < |vs| ==> !p(vs[j]);
    }
    var d := FindFirst(vs, IsEnglishDefault);
    if d.None? {
      var e := FindFirst(vs, IsEnglish);
    }
  }

  /** The utterance the browser speaks (main.js:66-86, main.js:116-118). */
  datatype Utterance = Utterance(text: string, lang: string, rate: real, pitch: real, volume: real, voice: Option<Voice>)

  /** The rate, pitch and volume of the settings, or 0.8, 1.0 and 1.0 before any are loaded. */
  function UtteranceFor(text: string, config: Option<ConfigJson>, vs: seq<Voice>): Utterance
  {
    var sel := SelectVoice(vs, config);
    var voice := if sel.Some? then Some(vs[sel.value]) else None;
    if config.Some? then
      Utterance(text, "en-US", config.value.browserRate, config.value.browserPitch, config.value.browserVolume, voice)
    else
      Utterance(text, "en-US", 0.8, 1.0, 1.0, voice)
  }

  /** Speaking before the settings arrive sounds the same as speaking with a fresh server row. */
  lemma UtteranceDefaultsMatchServer(text: string, vs: seq<Voice>, now: int)
    ensures UtteranceFor(text, None, vs) == UtteranceFor(text, Some(ToJson(Defaults(now))), vs)
  {
  }

  /** The utterance speaks the text in American English with the settings' own values when loaded. */
  lemma UtteranceUsesSettings(text: string, s: Settings, vs: seq<Voice>)
    ensures var u := UtteranceFor(text, Some(ToJson(s)), vs);
            u.text == text && u.lang == "en-US" && u.rate == s.rate && u.pitch == s.pitch && u.volume == s.volume
            && (u.voice.Some? ==> u.voice.value in vs)
  {
  }

  // ---------------------------------------------------------------------
  // Engine dispatch (main.js:220-309)
  // ---------------------------------------------------------------------

  /** What a press of a play button leads to. */
  datatype Action = Ignored | BrowserSpeech | ServerSpeech | NoSpeech

  /** The engine `playAudio` uses (main.js:220-309); any mode other than browser or server is auto. */
  function ChooseAction(disabled: bool, config: Option<ConfigJson>, supported: bool): Action
  {
    if disabled then Ignored
    else if config.None? || config.value.ttsMode == "browser" then (if supported then BrowserSpeech else NoSpeech)
    else if config.value.ttsMode == "server" then ServerSpeech
    else if supported then BrowserSpeech
    else ServerSpeech
  }

  /** The dispatch rules of `playAudio`. */
  lemma ChooseActionRules(disabled: bool, config: Option<ConfigJson>, supported: bool)
    ensures var a := ChooseAction(disabled, config, supported);
            && (a == Ignored <==> disabled)
            && (!disabled && config.None? ==> a == (if supported then BrowserSpeech else NoSpeech))
            && (config.Some? && config.value.ttsMode == "browser" ==> a != ServerSpeech)
            && (config.Some? && config.value.ttsMode == "server" ==> a != BrowserSpeech)
            && (!disabled && config.Some? && config.value.ttsMode != "browser" && config.value.ttsMode != "server" ==>
                  a == (if supported then BrowserSpeech else ServerSpeech))
            && (a == ServerSpeech ==> config.Some?)
            && (a == NoSpeech ==> !supported)
  {
  }

  /** A play button: whether it is disabled and the class of its icon. */
  class PlayButton {
    var disabled: bool
    var iconClass: string

    constructor (iconClass: string)
      ensures !disabled && this.iconClass == iconClass
    {
      disabled := false;
      this.iconClass := iconClass;
    }

    /**
     * A press handled by `playAudio(text, button)` (main.js:220-241): a
     * disabled button is ignored; otherwise the icon becomes a spinner and the
     * button is disabled until `Restore`, except when there is nothing to
     * play, which restores it at once.
     */
    method Press(config: Option<ConfigJson>, supported: bool) returns (action: Action, saved: string)
      modifies this
      ensures action == ChooseAction(old(disabled), config, supported)
      ensures saved == old(iconClass)
      ensures action == Ignored || action == NoSpeech ==> disabled == old(disabled) && iconClass == old(iconClass)
      ensures action == BrowserSpeech || action == ServerSpeech ==> disabled && iconClass == Spinner
    {
      saved := iconClass;
      if disabled {
        return Ignored, saved;
      }
      iconClass := Spinner;
      disabled := true;
      action := ChooseAction(false, config, supported);
      if action == NoSpeech {
        Restore(saved);
      }
    }

    /** `restoreButton()` (main.js:234-239). */
    method Restore(saved: string)
      modifies this
      ensures !disabled && iconClass == saved
    {
      iconClass := saved;
      disabled := false;
    }
  }

  const Spinner := "fas fa-spinner fa-spin"

  // ---------------------------------------------------------------------
  // Server speech (main.js:155-217)
  // ---------------------------------------------------------------------

  /** The time `playServerTTS` waits, in milliseconds (main.js:160). */
  function ServerTimeoutMs(config: Option<ConfigJson>): int
  {
    if config.Some? then config.value.serverTimeout * 1000 else 8000
  }

  /** The wait is the configured number of seconds, so 3 to 30 seconds for a row the update accepted, 8 otherwise. */
  lemma ServerTimeoutMsRange(config: Option<ConfigJson>, s: Settings, now: int)
    ensures ServerTimeoutMs(None) == ServerTimeoutMs(Some(ToJson(Defaults(now)))) == 8000
    ensures InRange(s) ==> 3000 <= ServerTimeoutMs(Some(ToJson(s))) <= 30000
  {
  }

  /** The JSON body of a reply of `/api/tts/<word>` as the client reads it. */
  datatype ReplyBody = ReplyBody(success: bool, audioUrl: Option<string>, error: Option<string>, fallback: bool)

  /** The status and body the server sends for each reply (app.py:636-715). */
  function Wire(r: TtsReply): (int, ReplyBody)
  {
    match r
    case Cached(url) => (200, ReplyBody(true, Some(url), None, false))
    case Generated(url) => (200, ReplyBody(true, Some(url), None, false))
    case _ => (Status(r), ReplyBody(false, None, ErrorText(r), Fallback(r)))
  }

  /** What the client does with a reply. */
  datatype ClientStep = LoadAudio(url: string) | HttpError(status: int) | ReportError(message: string)

  /**
   * The reply handling of `playServerTTS` (main.js:172-210): a status outside
   * 200-299 is an error before the body is read; otherwise the audio is
   * loaded exactly when `success` holds and `audio_url` is non-empty, and
   * any other body reports its non-empty `error` or "Audio generation failed".
   */
  function ReadReply(status: int, body: ReplyBody): (r: ClientStep)
    ensures r.HttpError? <==> !(200 <= status <= 299)
    ensures r.HttpError? ==> r.status == status
    ensures r.LoadAudio? ==> body.success && body.audioUrl == Some(r.url) && r.url != ""
    ensures (200 <= status <= 299 && body.success && body.audioUrl.Some? && body.audioUrl.value != "")
            ==> r == LoadAudio(body.audioUrl.value)
    ensures r.ReportError? ==> r.message != ""
    ensures r.ReportError? && body.error.Some? && body.error.value != "" ==> r.message == body.error.value
    ensures r.ReportError? && (body.error.None? || body.error.value == "") ==> r.message == "Audio generation failed"
  {
    if !(200 <= status <= 299) then HttpError(status)
    else if body.success && body.audioUrl.Some? && body.audioUrl.value != "" then LoadAudio(body.audioUrl.value)
    else ReportError(if body.error.Some? && body.error.value != "" then body.error.value else "Audio generation failed")
  }

  /**
   * The client loads audio exactly when the server replied with a hit or a
   * fresh file, and then loads the word's cache file; every other reply is an
   * HTTP error whose body, its `fallback` flag included, is never read.
   */
  lemma ClientFollowsServer(d: Dir, digest: string -> string, word: string, g: Generation)
    requires WellFormed(d)
    ensures var r := Serve(d, digest, word, g).1;
            var (status, body) := Wire(r);
            && (ReadReply(status, body).LoadAudio? <==> Success(r))
            && (Success(r) ==> ReadReply(status, body) == LoadAudio(AudioUrl(CacheName(digest, word))))
            && (!Success(r) ==> ReadReply(status, body) == HttpError(Status(r)))
  {
    SuccessMeansFile(d, digest, word, g);
  }
}
