/**
 * The server text-to-speech endpoint `text_to_speech(word)` (app.py:618-737):
 * audio is cached in `static/audio` under a name derived from a digest of the
 * word; a miss starts a generation whose outcome (finished or still running,
 * what it left on disk, what it raised) is an input of the model.
 *
 * The digest `md5(word)[:8]` is a parameter: nothing here depends on how it
 * is computed.
 */
module SpeechCache {
  import opened Wrappers

  /** The audio directory: whether it exists, whether it is writable, and the size of each file in it. */
  datatype Dir = Dir(present: bool, writable: bool, files: map<string, nat>)

  /** A directory that does not exist holds no files. */
  predicate WellFormed(d: Dir) {
    !d.present ==> d.files == map[]
  }

  /** `f"cached_{word_hash}.mp3"` (app.py:641-642). */
  function CacheName(digest: string -> string, word: string): string
  {
    "cached_" + digest(word) + ".mp3"
  }

  /** `f'/static/audio/{cached_filename}'` (app.py:647, app.py:713). */
  function AudioUrl(name: string): string
  {
    "/static/audio/" + name
  }

  /**
   * What the generation thread did by the time `join(timeout)` returned
   * (app.py:670-689): still running, finished (with the text of the
   * `Exception` it caught, if any), or ended by an exception its handler
   * does not catch (a `BaseException` such as `SystemExit`), which sets
   * neither flag; in every case the size of the file it left, if any.
   */
  datatype Generation =
    | StillRunning(written: Option<nat>)
    | Finished(written: Option<nat>, raised: Option<string>)
    | Died(written: Option<nat>)

  /** The replies of the endpoint (app.py:636-737). */
  datatype TtsReply =
    | Cached(url: string)
    | Generated(url: string)
    | NoWritePermission
    | TimedOut
    | Unavailable(detail: string)

  function Status(r: TtsReply): int
  {
    match r
    case Cached(_) => 200
    case Generated(_) => 200
    case NoWritePermission => 500
    case TimedOut => 503
    case Unavailable(_) => 503
  }

  /** The reply's `success` field. */
  predicate Success(r: TtsReply) {
    r.Cached? || r.Generated?
  }

  /** The reply carries `'fallback': True`. */
  predicate Fallback(r: TtsReply) {
    r.TimedOut? || r.Unavailable?
  }

  /** The reply's `error` field, when it has one. */
  function ErrorText(r: TtsReply): Option<string>
  {
    match r
    case NoWritePermission => Some("音频目录没有写入权限")
    case TimedOut => Some("TTS服务超时，建议使用浏览器语音")
    case Unavailable(detail) => Some("语音服务不可用：" + detail)
    case _ => None
  }

  /** The text of the error a finished generation recorded (app.py:676-680). */
  const EmptyFileError := "生成的音频文件为空"

  /** The text used when the thread recorded neither success nor an error (app.py:703). */
  const GenericFailure := "TTS生成失败"

  /** The file left by a generation, if any, recorded in the directory. */
  function Leave(d: Dir, name: string, written: Option<nat>): Dir
  {
    if written.Some? then d.(files := d.files[name := written.value]) else d
  }

  /**
   * One request: the directory afterwards and the reply. The directory is
   * created when missing; without write permission nothing else happens; an
   * existing file is a hit whatever its size; otherwise a generation runs,
   * and it succeeds only when it finished, raised nothing and left a
   * non-empty file.
   */
  function Serve(d: Dir, digest: string -> string, word: string, g: Generation): (Dir, TtsReply)
  {
    var d1 := if d.present then d else Dir(true, d.writable, map[]);
    var name := CacheName(digest, word);
    if !d1.writable then (d1, NoWritePermission)
    else if name in d1.files then (d1, Cached(AudioUrl(name)))
    else
      var d2 := Leave(d1, name, g.written);
      match g
      case StillRunning(_) => (d2, TimedOut)
      case Finished(written, raised) =>
        if raised.None? && written.Some? && written.value > 0 then (d2, Generated(AudioUrl(name)))
        else if raised.Some? then (d2, Unavailable(raised.value))
        else (d2, Unavailable(EmptyFileError))
      case Died(_) => (d2, Unavailable(GenericFailure))
  }

  /** The status code is 503 exactly for the replies that tell the client to fall back, and 200 exactly on success. */
  lemma StatusMeaning(r: TtsReply)
    ensures Status(r) == 503 <==> Fallback(r)
    ensures Status(r) == 200 <==> Success(r)
    ensures Success(r) <==> ErrorText(r).None?
  {
  }

  /** A request leaves the directory well formed, existing, with the same permission, and no file lost or changed. */
  lemma ServeKeepsFiles(d: Dir, digest: string -> string, word: string, g: Generation)
    requires WellFormed(d)
    ensures var d' := Serve(d, digest, word, g).0;
            && WellFormed(d') && d'.present && d'.writable == d.writable
            && (forall n :: n in d.files ==> n in d'.files && d'.files[n] == d.files[n])
            && (forall n :: n in d'.files && n !in d.files ==> n == CacheName(digest, word))
  {
  }

  /** Without write permission the reply is a 500 and no file is looked up or written (app.py:636-638). */
  lemma NoPermissionNoWork(d: Dir, digest: string -> string, word: string, g: Generation)
    requires !d.writable
    ensures Serve(d, digest, word, g).1 == NoWritePermission
    ensures Serve(d, digest, word, g).0.files == (if d.present then d.files else map[])
  {
  }

  /** A file that exists is served as a hit, with the directory untouched (app.py:645-648). */
  lemma HitLeavesDirAlone(d: Dir, digest: string -> string, word: string, g: Generation)
    requires d.present && d.writable && CacheName(digest, word) in d.files
    ensures Serve(d, digest, word, g) == (d, Cached(AudioUrl(CacheName(digest, word))))
  {
  }

  /** A success names the word's file, which then exists; a fresh one is non-empty (app.py:676-677, app.py:713-715). */
  lemma SuccessMeansFile(d: Dir, digest: string -> string, word: string, g: Generation)
    requires WellFormed(d)
    ensures var (d', r) := Serve(d, digest, word, g);
            && (Success(r) ==> r.url == AudioUrl(CacheName(digest, word)) && CacheName(digest, word) in d'.files)
            && (r.Generated? ==> d'.files[CacheName(digest, word)] > 0 && CacheName(digest, word) !in d.files)
  {
  }

  /** A generation still running at the deadline gives the timeout reply (app.py:689-699). */
  lemma RunningMeansTimeout(d: Dir, digest: string -> string, word: string, w: Option<nat>)
    requires d.writable && (!d.present || CacheName(digest, word) !in d.files)
    ensures Serve(d, digest, word, StillRunning(w)).1 == TimedOut
  {
  }

  /**
   * On a miss, a finished generation succeeds exactly when it raised nothing
   * and left a non-empty file; otherwise the reply is a 503 fallback whose
   * error carries the exception's text, or the empty-file text when nothing
   * was raised (app.py:676-680, app.py:701-710).
   */
  lemma FinishedOutcome(d: Dir, digest: string -> string, word: string, w: Option<nat>, raised: Option<string>)
    requires d.writable && (!d.present || CacheName(digest, word) !in d.files)
    ensures var r := Serve(d, digest, word, Finished(w, raised)).1;
            && (Success(r) <==> raised.None? && w.Some? && w.value > 0)
            && (r.Generated? <==> Success(r))
            && (!Success(r) ==>
                  var detail := if raised.Some? then raised.value else EmptyFileError;
                  && r == Unavailable(detail)
                  && Status(r) == 503 && Fallback(r)
                  && ErrorText(r) == Some("语音服务不可用：" + detail))
  {
  }

  /** On a miss, a thread ended by an uncaught exception gives the generic failure text (app.py:701-710). */
  lemma DiedUnavailable(d: Dir, digest: string -> string, word: string, w: Option<nat>)
    requires d.writable && (!d.present || CacheName(digest, word) !in d.files)
    ensures var r := Serve(d, digest, word, Died(w)).1;
            && r == Unavailable(GenericFailure)
            && Status(r) == 503 && Fallback(r)
            && ErrorText(r) == Some("语音服务不可用：" + GenericFailure)
  {
  }

  /** The names of two words differ exactly when their digests do: the key is the raw word's digest, not normalised. */
  lemma CacheNameInjective(digest: string -> string, a: string, b: string)
    ensures CacheName(digest, a) == CacheName(digest, b) <==> digest(a) == digest(b)
  {
    var na, nb := CacheName(digest, a), CacheName(digest, b);
    if na == nb {
      assert |digest(a)| == |digest(b)|;
      assert digest(a) == na[7..|na| - 4];
      assert digest(b) == nb[7..|nb| - 4];
    }
  }

  /** A word whose file exists after a request is a hit on every later request while the permission stays. */
  lemma ServedThenCached(d: Dir, digest: string -> string, word: string, g: Generation, g': Generation)
    requires d.writable
    ensures var (d', r) := Serve(d, digest, word, g);
            CacheName(digest, word) in d'.files ==>
              Serve(d', digest, word, g') == (d', Cached(AudioUrl(CacheName(digest, word))))
  {
  }

  /**
   * A finished generation that left an empty file replies unavailable, and
   * the empty file is then served as a hit (app.py:645 checks existence only,
   * app.py:676 checks the size).
   */
  lemma EmptyFileLaterHit(d: Dir, digest: string -> string, word: string, g': Generation)
    requires d.writable && (!d.present || CacheName(digest, word) !in d.files)
    ensures var (d', r) := Serve(d, digest, word, Finished(Some(0), None));
            && r == Unavailable(EmptyFileError)
            && Serve(d', digest, word, g').1 == Cached(AudioUrl(CacheName(digest, word)))
  {
  }

  /** Two words with the same digest share one file: the second is served the first's audio. */
  lemma DigestCollisionShares(d: Dir, digest: string -> string, a: string, b: string, g: Generation, g': Generation)
    requires d.writable && digest(a) == digest(b)
    ensures var (d', r) := Serve(d, digest, a, g);
            Success(r) ==> Serve(d', digest, b, g').1 == Cached(r.url)
  {
  }

  /** The audio directory `static/audio`, changed in place by the endpoint. */
  class AudioDirectory {
    var present: bool
    var writable: bool
    var files: map<string, nat>

    function Snapshot(): Dir
      reads this
    {
      Dir(present, writable, files)
    }

    constructor (d: Dir)
      ensures Snapshot() == d
    {
      present, writable, files := d.present, d.writable, d.files;
    }

    /**
     * `text_to_speech(word)` (app.py:630-715) with the generation thread's
     * result given: create the directory, check permission, look for the
     * cached file, and otherwise record what the generation left and check
     * the file as the thread does.
     */
    method TextToSpeech(digest: string -> string, word: string, g: Generation) returns (reply: TtsReply)
      modifies this
      ensures (Snapshot(), reply) == Serve(old(Snapshot()), digest, word, g)
    {
      if !present {
        present := true;
        files := map[];
      }
      if !writable {
        return NoWritePermission;
      }
      var name := CacheName(digest, word);
      if name in files {
        return Cached(AudioUrl(name));
      }
      if g.written.Some? {
        files := files[name := g.written.value];
      }
      if g.StillRunning? {
        return TimedOut;
      }
      if g.Died? {
        return Unavailable(GenericFailure);
      }
      if g.raised.None? && name in files && files[name] > 0 {
        reply := Generated(AudioUrl(name));
      } else if g.raised.Some? {
        reply := Unavailable(g.raised.value);
      } else {
        reply := Unavailable(EmptyFileError);
      }
    }
  }

  /**
   * What happens to the directory over time: requests, and generation
   * threads that outlived their request finishing later and leaving a file.
   */
  datatype Event =
    | Request(word: string, g: Generation)
    | LateWrite(name: string, size: nat)

  /** The directory after the events, and for each event the reply it got (none for a late write). */
  function Run(d: Dir, digest: string -> string, events: seq<Event>): (r: (Dir, seq<Option<TtsReply>>))
    ensures |r.1| == |events|
  {
    if events == [] then (d, [])
    else
      var (d0, replies) := Run(d, digest, events[..|events| - 1]);
      match events[|events| - 1]
      case Request(word, g) =>
        var (d1, reply) := Serve(d0, digest, word, g);
        (d1, replies + [Some(reply)])
      case LateWrite(name, size) =>
        if d0.present then (d0.(files := d0.files[name := size]), replies + [None]) else (d0, replies + [None])
  }

  /** Over any run the permission stays, well-formedness is kept, and a file, once there, stays. */
  lemma {:induction false} RunKeepsFiles(d: Dir, digest: string -> string, events: seq<Event>)
    requires WellFormed(d)
    ensures var d' := Run(d, digest, events).0;
            && WellFormed(d') && d'.writable == d.writable
            && (d.present ==> d'.present)
            && (forall n :: n in d.files ==> n in d'.files)
  {
    if events != [] {
      var init := events[..|events| - 1];
      RunKeepsFiles(d, digest, init);
      var d0 := Run(d, digest, init).0;
      match events[|events| - 1]
      case Request(word, g) =>
        ServeKeepsFiles(d0, digest, word, g);
      case LateWrite(name, size) =>
    }
  }

  /**
   * Once a word's file exists in a writable directory, every later request
   * for that word, whatever else happens in between, is a hit on the same
   * address.
   */
  lemma {:induction false} CachedStaysCached(d: Dir, digest: string -> string, word: string, events: seq<Event>)
    requires WellFormed(d) && d.present && d.writable && CacheName(digest, word) in d.files
    ensures var replies := Run(d, digest, events).1;
            forall k :: 0 <= k < |events| && events[k].Request? && events[k].word == word ==>
              replies[k] == Some(Cached(AudioUrl(CacheName(digest, word))))
  {
    if events != [] {
      var last := |events| - 1;
      var init := events[..last];
      CachedStaysCached(d, digest, word, init);
      RunKeepsFiles(d, digest, init);
      var (d0, replies0) := Run(d, digest, init);
      var replies := Run(d, digest, events).1;
      assert replies[..last] == replies0;
      forall k | 0 <= k < last && events[k].Request? && events[k].word == word
        ensures replies[k] == Some(Cached(AudioUrl(CacheName(digest, word))))
      {
        assert events[k] == init[k];
        assert replies[k] == replies0[k];
      }
    }
  }
}
