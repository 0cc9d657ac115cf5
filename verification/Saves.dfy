/** The two files written through a temporary file and a rename: state.json
    (internal/state/state.go) and the settings (internal/config/yaml.go). */
module Saves {
  import opened Wrappers
  import opened Json
  import opened Disk
  import opened Settings

  /** A State record; appliedAt is the instant its time stands for. */
  datatype State = State(uri: string, stateLabel: string, appliedAt: int)

  const STATE_TAGS := {StateUri, StateLabel, AppliedAt}

  function StateField(s: State, k: Key): Option<Json>
  {
    match k
    case StateUri => Some(JStr(s.uri))
    case StateLabel => OmitStr(s.stateLabel)
    case AppliedAt => Some(JNum(s.appliedAt))
    case _ => None
  }

  function EncodeState(s: State): Json { Object(STATE_TAGS, k => StateField(s, k)) }

  function DecodeState(j: Json): Option<State>
  {
    if j.JNull? then Some(State("", "", 0))
    else if !j.JObj? then None
    else
      var u, l, a := StrAt(j.fields, StateUri), StrAt(j.fields, StateLabel), IntAt(j.fields, AppliedAt);
      if u.None? || l.None? || a.None? then None else Some(State(u.value, l.value, a.value))
  }

  lemma StateAt(s: State, k: Key)
    requires k in STATE_TAGS
    ensures EncodeState(s).JObj? && At(EncodeState(s).fields, k) == StateField(s, k)
  {
  }

  lemma StateReadsBack(s: State)
    ensures DecodeState(EncodeState(s)) == Some(s)
  {
    hide EncodeState, At;
    StateAt(s, StateUri);
    StateAt(s, StateLabel);
    StateAt(s, AppliedAt);
  }

  // -------------------------------------------------------------------------
  // Loading
  // -------------------------------------------------------------------------

  /** state.Load: no file is no state; anything undecodable is an error. */
  function LoadState(f: Files): Result<Option<State>, ()>
  {
    if StateFile !in f then Success(None)
    else if f[StateFile].Raw? || DecodeState(f[StateFile].doc).None? then Failure(())
    else Success(DecodeState(f[StateFile].doc))
  }

  lemma SameState(f: Files, g: Files)
    requires Same(f, g, StateFile)
    ensures LoadState(f) == LoadState(g)
  {
    hide DecodeState;
  }

  /** LoadSettings: no file and an empty file are the defaults; a document is laid over the
      defaults; anything else is an error. */
  function LoadSettings(f: Files): Result<Settings, ()>
  {
    if SettingsFile !in f then Success(DEFAULTS)
    else
      match f[SettingsFile]
      case Raw(t) => if t == "" then Success(DEFAULTS) else Failure(())
      case Doc(JNull) => Success(DEFAULTS)
      case Doc(JObj(fields)) =>
        var s := Overlay(fields, DEFAULTS);
        if s.None? then Failure(()) else Success(s.value)
      case _ => Failure(())
  }

  method ReadSettings(v: Volume) returns (r: Result<Settings, ()>)
    ensures r == LoadSettings(v.files)
  {
    var s := DEFAULTS;
    if SettingsFile !in v.files || v.files[SettingsFile] in [EMPTY, Doc(JNull)] {
      return Success(s);
    }
    var body := v.files[SettingsFile];
    if body.Raw? || !body.doc.JObj? {
      return Failure(());
    }
    var over := Overlay(body.doc.fields, s);
    if over.None? {
      return Failure(());
    }
    s := over.value;
    return Success(s);
  }

  // -------------------------------------------------------------------------
  // Saving
  // -------------------------------------------------------------------------

  /** Whether the directory can be made, how the temporary file is written, whether the
      rename works, and whether a leftover can be removed. */
  datatype SaveEnv = SaveEnv(mkdirs: bool, write: Write, renames: bool, cleans: bool)
  {
    predicate Works() { mkdirs && write.Works() && renames }
  }

  /** A save of body to a file. Only SaveSettings tidies up after a failed rename. */
  function SaveSteps(to: Slot, tmp: Slot, body: Body, tidies: bool, e: SaveEnv): seq<Step>
  {
    if !e.mkdirs then []
    else
      WriteSteps(tmp, e.write, body)
      + if !e.write.Works() then []
        else if e.renames then [Rename(tmp, to)]
        else if tidies && e.cleans then [Remove(tmp)]
        else []
  }

  function SaveSettingsSteps(s: Settings, e: SaveEnv): seq<Step>
  {
    SaveSteps(SettingsFile, SettingsTmp, Doc(EncodeSettings(s)), true, e)
  }

  function SaveStateSteps(s: State, e: SaveEnv): seq<Step>
  {
    SaveSteps(StateFile, StateTmp, Doc(EncodeState(s)), false, e)
  }

  method SaveTo(v: Volume, to: Slot, tmp: Slot, body: Body, tidies: bool, e: SaveEnv) returns (ok: bool)
    requires v.Valid()
    modifies v
    ensures v.Valid() && ok == e.Works()
    ensures v.log == old(v.log) + SaveSteps(to, tmp, body, tidies, e)
    ensures v.files == Exec(old(v.files), SaveSteps(to, tmp, body, tidies, e))
  {
    ok := false;
    if e.mkdirs {
      var written := v.WriteFile(tmp, body, e.write);
      if written {
        if e.renames {
          v.Perform(Rename(tmp, to));
          ok := true;
        } else if tidies && e.cleans {
          v.Perform(Remove(tmp));
        }
      }
    }
    assert v.log == old(v.log) + SaveSteps(to, tmp, body, tidies, e);
    v.Since(SaveSteps(to, tmp, body, tidies, e));
  }

  /** Wherever a save stops, every file but the target and its temporary file is as before,
      and the target is as before until the rename, the new body from then on. */
  lemma SaveStops(f: Files, to: Slot, tmp: Slot, body: Body, tidies: bool, e: SaveEnv, i: nat)
    requires to != tmp
    requires i <= |SaveSteps(to, tmp, body, tidies, e)|
    ensures var steps := SaveSteps(to, tmp, body, tidies, e);
      var g := Exec(f, steps[..i]);
      && (forall k :: k != to && k != tmp ==> Same(g, f, k))
      && (if e.Works() && i == |steps| then to in g && g[to] == body else Same(g, f, to))
  {
    var steps := SaveSteps(to, tmp, body, tidies, e);
    var g := Exec(f, steps[..i]);
    forall k | k != to && k != tmp
      ensures Same(g, f, k)
    {
      UntouchedStays(f, steps[..i], k);
    }
    if e.Works() && i == |steps| {
      var w := WriteSteps(tmp, e.write, body);
      assert steps[..i] == w + [Rename(tmp, to)];
      ExecAppend(f, w, [Rename(tmp, to)]);
      WriteStepsEnd(f, tmp, e.write, body);
      ExecOne(Exec(f, w), Rename(tmp, to));
    } else {
      UntouchedStays(f, steps[..i], to);
    }
  }

  /** A save of the settings stopped anywhere leaves a file that loads as before or as the
      new settings, all of them; a finished one leaves the new settings. */
  lemma SettingsSaveIsAtomic(f: Files, s: Settings, e: SaveEnv, i: nat)
    requires i <= |SaveSettingsSteps(s, e)|
    ensures var g := Exec(f, SaveSettingsSteps(s, e)[..i]);
      LoadSettings(g) == if e.Works() && i == |SaveSettingsSteps(s, e)| then Success(s) else LoadSettings(f)
  {
    hide Overlay, EncodeSettings, Exec, SaveSteps;
    SaveStops(f, SettingsFile, SettingsTmp, Doc(EncodeSettings(s)), true, e, i);
    OverlayReplacesAll(s, DEFAULTS);
  }

  lemma StateSaveIsAtomic(f: Files, s: State, e: SaveEnv, i: nat)
    requires i <= |SaveStateSteps(s, e)|
    ensures var g := Exec(f, SaveStateSteps(s, e)[..i]);
      LoadState(g) == if e.Works() && i == |SaveStateSteps(s, e)| then Success(Some(s)) else LoadState(f)
  {
    hide DecodeState, EncodeState, Exec, SaveSteps;
    SaveStops(f, StateFile, StateTmp, Doc(EncodeState(s)), false, e, i);
    StateReadsBack(s);
  }

  /** A temporary file left over from an earlier save changes nothing that a later one
      leaves behind, wherever that one stops. */
  lemma LeftoversDoNotMatter(f: Files, g: Files, to: Slot, tmp: Slot, body: Body, tidies: bool, e: SaveEnv, i: nat)
    requires to != tmp && i <= |SaveSteps(to, tmp, body, tidies, e)|
    requires forall k :: k != tmp ==> Same(f, g, k)
    ensures var steps := SaveSteps(to, tmp, body, tidies, e);
      forall k :: k != tmp ==> Same(Exec(f, steps[..i]), Exec(g, steps[..i]), k)
  {
    hide Exec, SaveSteps;
    SaveStops(f, to, tmp, body, tidies, e, i);
    SaveStops(g, to, tmp, body, tidies, e, i);
    var steps := SaveSteps(to, tmp, body, tidies, e)[..i];
    forall k | k != tmp
      ensures Same(Exec(f, steps), Exec(g, steps), k)
    {
      assert Same(f, g, k);
      assert k != to ==> Same(Exec(f, steps), f, k) && Same(Exec(g, steps), g, k);
    }
  }

  // -------------------------------------------------------------------------
  // Loading, case by case
  // -------------------------------------------------------------------------

  /** What the settings file loads as: the defaults when it is missing, empty or null; field
      by field its own values over the defaults when it is an object of the right types; an
      error otherwise. */
  lemma LoadedSettings(f: Files)
    ensures SettingsFile !in f || f[SettingsFile] == Raw("") || f[SettingsFile] == Doc(JNull) ==>
              LoadSettings(f) == Success(DEFAULTS)
    ensures SettingsFile in f && f[SettingsFile].Raw? && f[SettingsFile].text != "" ==> LoadSettings(f).Failure?
    ensures SettingsFile in f && f[SettingsFile].Doc? && !f[SettingsFile].doc.JObj? && f[SettingsFile].doc != JNull ==>
              LoadSettings(f).Failure?
    ensures SettingsFile in f && f[SettingsFile].Doc? && f[SettingsFile].doc.JObj? ==>
              var fields := f[SettingsFile].doc.fields;
              && (LoadSettings(f).Success? <==> WellTyped(fields))
              && (WellTyped(fields) ==> forall k :: k in SETTING_TAGS ==>
                    SettingField(LoadSettings(f).value, k)
                    == if At(fields, k).Some? then At(fields, k) else SettingField(DEFAULTS, k))
  {
    hide WellTyped, SettingField, At;
    if SettingsFile in f && f[SettingsFile].Doc? && f[SettingsFile].doc.JObj? {
      var fields := f[SettingsFile].doc.fields;
      OverlaySucceeds(fields, DEFAULTS);
      if WellTyped(fields) {
        forall k | k in SETTING_TAGS
          ensures SettingField(Overlay(fields, DEFAULTS).value, k)
               == if At(fields, k).Some? then At(fields, k) else SettingField(DEFAULTS, k)
        {
          OverlayField(fields, DEFAULTS, k);
        }
      }
    }
  }

  lemma OverlaySucceeds(fields: map<Key, Json>, d: Settings)
    ensures Overlay(fields, d).Some? <==> WellTyped(fields)
  {
    hide WellTyped;
  }

  /** What the state file loads as. */
  lemma LoadedState(f: Files)
    ensures StateFile !in f ==> LoadState(f) == Success(None)
    ensures StateFile in f && f[StateFile].Raw? ==> LoadState(f).Failure?
    ensures StateFile in f && f[StateFile].Doc? ==>
              var s := DecodeState(f[StateFile].doc);
              LoadState(f) == if s.None? then Failure(()) else Success(Some(s.value))
  {
    hide DecodeState;
  }

  /** What a finished save leaves of its temporary file: nothing when it worked; what was
      written when only the rename failed, unless the save tidies up and can. */
  lemma TemporaryFileAfterSave(f: Files, to: Slot, tmp: Slot, body: Body, tidies: bool, e: SaveEnv)
    requires to != tmp && e.mkdirs && e.write.Works()
    ensures var g := Exec(f, SaveSteps(to, tmp, body, tidies, e));
      && (tmp in g <==> !e.renames && !(tidies && e.cleans))
      && (tmp in g ==> g[tmp] == body)
  {
    var w := WriteSteps(tmp, e.write, body);
    var steps := SaveSteps(to, tmp, body, tidies, e);
    WriteStepsEnd(f, tmp, e.write, body);
    if e.renames {
      assert steps == w + [Rename(tmp, to)];
      ExecAppend(f, w, [Rename(tmp, to)]);
      ExecOne(Exec(f, w), Rename(tmp, to));
    } else if tidies && e.cleans {
      assert steps == w + [Step.Remove(tmp)];
      ExecAppend(f, w, [Step.Remove(tmp)]);
      ExecOne(Exec(f, w), Step.Remove(tmp));
    } else {
      assert steps == w;
    }
  }
}
