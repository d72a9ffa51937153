/**
 * The text-to-speech settings of the application: one `TTSConfig` row,
 * created lazily with fixed defaults by `get_tts_config` (app.py:105-119),
 * updated field by field by `update_tts_config` (app.py:122-156), and served
 * as JSON by `tts_config_api` (app.py:764-803).
 *
 * Clock readings are parameters (`now`); the row lives in memory.
 */
module TtsSettings {
  import opened Wrappers

  /** The columns of a `TTSConfig` row (app.py:79-97); dates are clock readings. */
  datatype Settings = Settings(
    mode: string,
    serverTimeout: int,
    rate: real,
    pitch: real,
    volume: real,
    preferredVoice: string,
    createdDate: int,
    updatedDate: int)

  /** The row `get_tts_config` creates when there is none (app.py:109-116). */
  function Defaults(now: int): Settings
  {
    Settings("auto", 8, 0.8, 1.0, 1.0, "", now, now)
  }

  /** The three modes the update accepts (app.py:128). */
  predicate ValidMode(m: string) {
    m == "server" || m == "browser" || m == "auto"
  }

  predicate TimeoutInRange(t: int) { 3 <= t <= 30 }
  predicate RateInRange(r: real) { 0.1 <= r <= 10.0 }
  predicate PitchInRange(p: real) { 0.0 <= p <= 2.0 }
  predicate VolumeInRange(v: real) { 0.0 <= v <= 1.0 }

  /** Every checked field holds a value its check accepts. */
  predicate InRange(s: Settings) {
    && ValidMode(s.mode)
    && TimeoutInRange(s.serverTimeout)
    && RateInRange(s.rate)
    && PitchInRange(s.pitch)
    && VolumeInRange(s.volume)
  }

  /** The defaults pass every check of the update. */
  lemma DefaultsInRange(now: int)
    ensures InRange(Defaults(now))
    ensures Defaults(now).createdDate == Defaults(now).updatedDate == now
  {
  }

  /**
   * A numeric key of the request: missing, present with the value `int()` or
   * `float()` makes of it, or present with a value those conversions reject.
   */
  datatype Field<T> = Absent | Given(value: T) | Unparsable

  /**
   * The JSON object of a settings update. A `tts_mode` that is not a string
   * is represented by a string outside the three modes: neither is accepted.
   */
  datatype Update = Update(
    mode: Option<string>,
    serverTimeout: Field<int>,
    rate: Field<real>,
    pitch: Field<real>,
    volume: Field<real>,
    preferredVoice: Option<string>)

  /** The conversion that raised, in the order the fields are read. */
  datatype UpdateError = TimeoutNotInteger | RateNotNumber | PitchNotNumber | VolumeNotNumber

  /** The row after `update_tts_config`, and the exception it raised, if any. */
  datatype Outcome = Outcome(settings: Settings, error: Option<UpdateError>)

  /** The first conversion of the request that fails. */
  function FirstError(d: Update): (e: Option<UpdateError>)
    ensures e == None <==>
              !d.serverTimeout.Unparsable? && !d.rate.Unparsable? && !d.pitch.Unparsable? && !d.volume.Unparsable?
  {
    if d.serverTimeout.Unparsable? then Some(TimeoutNotInteger)
    else if d.rate.Unparsable? then Some(RateNotNumber)
    else if d.pitch.Unparsable? then Some(PitchNotNumber)
    else if d.volume.Unparsable? then Some(VolumeNotNumber)
    else None
  }

  /** The rank of an error in reading order: the fields before it were read. */
  function Rank(e: UpdateError): nat
  {
    match e
    case TimeoutNotInteger => 1
    case RateNotNumber => 2
    case PitchNotNumber => 3
    case VolumeNotNumber => 4
  }

  /** No conversion of rank `rank` or lower failed, so the field of that rank was assigned. */
  predicate Reached(d: Update, rank: nat) {
    FirstError(d) == None || rank < Rank(FirstError(d).value)
  }

  /** The value a checked field ends up with: the given one if it passes, else the old one. */
  function Checked<T>(old_: T, f: Field<T>, ok: T -> bool): T
  {
    if f.Given? && ok(f.value) then f.value else old_
  }

  /**
   * `update_tts_config(data)` on the row `s` (app.py:122-156): each field
   * in turn, a failed conversion stopping the update with the earlier
   * assignments already made, and `updated_date` stamped only at the end.
   */
  function ApplyUpdate(s: Settings, d: Update, now: int): (r: Outcome)
    ensures r.error == FirstError(d)
    ensures r.settings.createdDate == s.createdDate
  {
    var s1 := if d.mode.Some? && ValidMode(d.mode.value) then s.(mode := d.mode.value) else s;
    if d.serverTimeout.Unparsable? then Outcome(s1, Some(TimeoutNotInteger))
    else
      var s2 := s1.(serverTimeout := Checked(s1.serverTimeout, d.serverTimeout, TimeoutInRange));
      if d.rate.Unparsable? then Outcome(s2, Some(RateNotNumber))
      else
        var s3 := s2.(rate := Checked(s2.rate, d.rate, RateInRange));
        if d.pitch.Unparsable? then Outcome(s3, Some(PitchNotNumber))
        else
          var s4 := s3.(pitch := Checked(s3.pitch, d.pitch, PitchInRange));
          if d.volume.Unparsable? then Outcome(s4, Some(VolumeNotNumber))
          else
            var s5 := s4.(volume := Checked(s4.volume, d.volume, VolumeInRange));
            var s6 := if d.preferredVoice.Some? then s5.(preferredVoice := d.preferredVoice.value) else s5;
            Outcome(s6.(updatedDate := now), None)
  }

  /** The intermediate rows of an update in which no conversion fails. */
  lemma ApplyUpdateCompletes(s: Settings, d: Update, now: int, s1: Settings, s2: Settings, s3: Settings, s4: Settings, s5: Settings)
    requires FirstError(d) == None
    requires s1 == if d.mode.Some? && ValidMode(d.mode.value) then s.(mode := d.mode.value) else s
    requires s2 == s1.(serverTimeout := Checked(s1.serverTimeout, d.serverTimeout, TimeoutInRange))
    requires s3 == s2.(rate := Checked(s2.rate, d.rate, RateInRange))
    requires s4 == s3.(pitch := Checked(s3.pitch, d.pitch, PitchInRange))
    requires s5 == s4.(volume := Checked(s4.volume, d.volume, VolumeInRange))
    ensures ApplyUpdate(s, d, now) ==
              Outcome((if d.preferredVoice.Some? then s5.(preferredVoice := d.preferredVoice.value) else s5)
                        .(updatedDate := now), None)
  {
  }

  /**
   * Field by field: a field whose conversion was reached takes the given
   * value when it passes its check; a field after a failed conversion, and
   * the update stamp of a failed update, keep their old values.
   */
  lemma ApplyUpdateFields(s: Settings, d: Update, now: int)
    ensures var t := ApplyUpdate(s, d, now).settings;
            && t.mode == (if d.mode.Some? && ValidMode(d.mode.value) then d.mode.value else s.mode)
            && t.serverTimeout ==
                 (if Reached(d, 1) then Checked(s.serverTimeout, d.serverTimeout, TimeoutInRange) else s.serverTimeout)
            && t.rate == (if Reached(d, 2) then Checked(s.rate, d.rate, RateInRange) else s.rate)
            && t.pitch == (if Reached(d, 3) then Checked(s.pitch, d.pitch, PitchInRange) else s.pitch)
            && t.volume == (if Reached(d, 4) then Checked(s.volume, d.volume, VolumeInRange) else s.volume)
            && t.preferredVoice ==
                 (if FirstError(d) == None && d.preferredVoice.Some? then d.preferredVoice.value else s.preferredVoice)
            && t.updatedDate == (if FirstError(d) == None then now else s.updatedDate)
  {
  }

  /** An update never takes a checked field out of range. */
  lemma ApplyUpdateKeepsInRange(s: Settings, d: Update, now: int)
    requires InRange(s)
    ensures InRange(ApplyUpdate(s, d, now).settings)
  {
  }

  /** A field the request does not name keeps its value. */
  lemma AbsentFieldsUnchanged(s: Settings, d: Update, now: int)
    ensures var t := ApplyUpdate(s, d, now).settings;
            && (d.mode.None? ==> t.mode == s.mode)
            && (d.serverTimeout.Absent? ==> t.serverTimeout == s.serverTimeout)
            && (d.rate.Absent? ==> t.rate == s.rate)
            && (d.pitch.Absent? ==> t.pitch == s.pitch)
            && (d.volume.Absent? ==> t.volume == s.volume)
            && (d.preferredVoice.None? ==> t.preferredVoice == s.preferredVoice)
  {
  }

  /** A field changes only to a given value that passes its check. */
  lemma ChangedFieldsWereGivenInRange(s: Settings, d: Update, now: int)
    ensures var t := ApplyUpdate(s, d, now).settings;
            && (t.mode != s.mode ==> d.mode == Some(t.mode) && ValidMode(t.mode))
            && (t.serverTimeout != s.serverTimeout ==>
                  d.serverTimeout == Given(t.serverTimeout) && TimeoutInRange(t.serverTimeout))
            && (t.rate != s.rate ==> d.rate == Given(t.rate) && RateInRange(t.rate))
            && (t.pitch != s.pitch ==> d.pitch == Given(t.pitch) && PitchInRange(t.pitch))
            && (t.volume != s.volume ==> d.volume == Given(t.volume) && VolumeInRange(t.volume))
            && (t.preferredVoice != s.preferredVoice ==> d.preferredVoice == Some(t.preferredVoice))
  {
  }

  /** Applying the same request twice, the second time at t2, leaves the row as one application at t2. */
  lemma ApplyUpdateIdempotent(s: Settings, d: Update, t1: int, t2: int)
    ensures ApplyUpdate(ApplyUpdate(s, d, t1).settings, d, t2).settings ==
              ApplyUpdate(s, d, t2).settings
  {
  }

  /** The `config` object of the JSON replies (app.py:772-779, app.py:790-797): the row without its dates. */
  datatype ConfigJson = ConfigJson(
    ttsMode: string,
    serverTimeout: int,
    browserRate: real,
    browserPitch: real,
    browserVolume: real,
    preferredVoice: string)

  function ToJson(s: Settings): ConfigJson
  {
    ConfigJson(s.mode, s.serverTimeout, s.rate, s.pitch, s.volume, s.preferredVoice)
  }

  /** Two rows give the same JSON exactly when they differ at most in their dates. */
  lemma ToJsonForgetsOnlyDates(s: Settings, t: Settings)
    ensures ToJson(s) == ToJson(t) <==>
              s.(createdDate := 0, updatedDate := 0) == t.(createdDate := 0, updatedDate := 0)
  {
  }

  /** The single `TTSConfig` row, updated in place. */
  class ConfigRow {
    var mode: string
    var serverTimeout: int
    var rate: real
    var pitch: real
    var volume: real
    var preferredVoice: string
    var createdDate: int
    var updatedDate: int

    function Snapshot(): Settings
      reads this
    {
      Settings(mode, serverTimeout, rate, pitch, volume, preferredVoice, createdDate, updatedDate)
    }

    /** `TTSConfig(tts_mode='auto', ...)` with both dates defaulted to the clock (app.py:109-116, app.py:96-97). */
    constructor (now: int)
      ensures Snapshot() == Defaults(now)
    {
      mode, serverTimeout, rate, pitch, volume, preferredVoice := "auto", 8, 0.8, 1.0, 1.0, "";
      createdDate, updatedDate := now, now;
    }

    /**
     * The assignments of `update_tts_config(data)` (app.py:126-154): the
     * fields one by one, a conversion that raises leaving the assignments
     * before it in place.
     */
    method Apply(data: Update, now: int) returns (error: Option<UpdateError>)
      modifies this
      ensures Outcome(Snapshot(), error) == ApplyUpdate(old(Snapshot()), data, now)
    {
      ghost var start := Snapshot();
      error := None;
      AssignMode(data.mode);
      ghost var s1 := Snapshot();
      if data.serverTimeout.Unparsable? {
        error := Some(TimeoutNotInteger);
        return;
      }
      AssignTimeout(data.serverTimeout);
      ghost var s2 := Snapshot();
      if data.rate.Unparsable? {
        error := Some(RateNotNumber);
        return;
      }
      AssignRate(data.rate);
      ghost var s3 := Snapshot();
      if data.pitch.Unparsable? {
        error := Some(PitchNotNumber);
        return;
      }
      AssignPitch(data.pitch);
      ghost var s4 := Snapshot();
      if data.volume.Unparsable? {
        error := Some(VolumeNotNumber);
        return;
      }
      AssignVolume(data.volume);
      ghost var s5 := Snapshot();
      if data.preferredVoice.Some? {
        preferredVoice := data.preferredVoice.value;
      }
      updatedDate := now;
      ApplyUpdateCompletes(start, data, now, s1, s2, s3, s4, s5);
    }

    /** `tts_mode` is assigned only when it names one of the three modes (app.py:126-129). */
    method AssignMode(m: Option<string>)
      modifies this
      ensures Snapshot() == if m.Some? && ValidMode(m.value) then old(Snapshot()).(mode := m.value) else old(Snapshot())
    {
      if m.Some? && ValidMode(m.value) {
        mode := m.value;
      }
    }

    /** `server_timeout`, kept when outside 3..30 (app.py:131-134). */
    method AssignTimeout(f: Field<int>)
      modifies this
      ensures Snapshot() == old(Snapshot()).(serverTimeout := Checked(old(serverTimeout), f, TimeoutInRange))
    {
      if f.Given? && TimeoutInRange(f.value) {
        serverTimeout := f.value;
      }
    }

    /** `browser_rate`, kept when outside 0.1..10.0 (app.py:136-139). */
    method AssignRate(f: Field<real>)
      modifies this
      ensures Snapshot() == old(Snapshot()).(rate := Checked(old(rate), f, RateInRange))
    {
      if f.Given? && RateInRange(f.value) {
        rate := f.value;
      }
    }

    /** `browser_pitch`, kept when outside 0..2 (app.py:141-144). */
    method AssignPitch(f: Field<real>)
      modifies this
      ensures Snapshot() == old(Snapshot()).(pitch := Checked(old(pitch), f, PitchInRange))
    {
      if f.Given? && PitchInRange(f.value) {
        pitch := f.value;
      }
    }

    /** `browser_volume`, kept when outside 0..1 (app.py:146-149). */
    method AssignVolume(f: Field<real>)
      modifies this
      ensures Snapshot() == old(Snapshot()).(volume := Checked(old(volume), f, VolumeInRange))
    {
      if f.Given? && VolumeInRange(f.value) {
        volume := f.value;
      }
    }
  }

  /** The `TTSConfig` table, which the application keeps at one row or none. */
  class ConfigTable {
    var row: ConfigRow?

    constructor ()
      ensures row == null
    {
      row := null;
    }

    /** `get_tts_config()` (app.py:105-119): the existing row untouched, or a fresh one with the defaults. */
    method GetTtsConfig(now: int) returns (config: ConfigRow)
      modifies this
      ensures row == config
      ensures old(row) != null ==> config == old(row) && config.Snapshot() == old(row.Snapshot())
      ensures old(row) == null ==> fresh(config) && config.Snapshot() == Defaults(now)
    {
      if row == null {
        config := new ConfigRow(now);
        row := config;
      } else {
        config := row;
      }
    }

    /**
     * `update_tts_config(data)` (app.py:122-156): the row, created if
     * needed, updated in place.
     */
    method UpdateTtsConfig(data: Update, now: int) returns (config: ConfigRow, error: Option<UpdateError>)
      modifies this, row
      ensures row == config
      ensures old(row) != null ==> config == old(row)
      ensures old(row) == null ==> fresh(config)
      ensures Outcome(config.Snapshot(), error) ==
                ApplyUpdate(if old(row) == null then Defaults(now) else old(row.Snapshot()), data, now)
    {
      config := GetTtsConfig(now);
      error := config.Apply(data, now);
    }

    /** `GET /api/tts-config` (app.py:767-780): the row's JSON, creating the row if needed. */
    method GetConfigJson(now: int) returns (json: ConfigJson)
      modifies this
      ensures row != null
      ensures json == ToJson(row.Snapshot())
      ensures old(row) != null ==> row == old(row) && json == ToJson(old(row.Snapshot()))
      ensures old(row) == null ==> json == ToJson(Defaults(now))
    {
      var config := GetTtsConfig(now);
      json := ToJson(config.Snapshot());
    }

    /**
     * `POST /api/tts-config` (app.py:782-803): the new settings with status
     * 200, or status 400 when a conversion raised.
     */
    method PostConfigJson(data: Update, now: int) returns (status: int, json: Option<ConfigJson>)
      modifies this, row
      ensures row != null
      ensures status == (if FirstError(data) == None then 200 else 400)
      ensures row.Snapshot() ==
                ApplyUpdate(if old(row) == null then Defaults(now) else old(row.Snapshot()), data, now).settings
      ensures json == (if status == 200 then Some(ToJson(row.Snapshot())) else None)
    {
      var config, error := UpdateTtsConfig(data, now);
      if error == None {
        status, json := 200, Some(ToJson(config.Snapshot()));
      } else {
        status, json := 400, None;
      }
    }
  }
}
