/**
 * The OCT segmentation module (`VPAWModelOCT`): the two paths its widget keeps in the
 * persistent settings store, with the flag that stops the store and the form from
 * updating each other in a loop, and the control flow of its logic, which links the
 * OCTSeg code base and runs the segmentation pipeline.
 *
 * The store is a map from full keys to strings. Dependency installation, the imports
 * that check the OCTSeg code base and the pipeline run itself are outside the model:
 * whether each succeeds is a parameter.
 */
module ModelOCT {
  import opened Results
  import opened Text
  import opened FileDiscovery

  // ---- The settings store ------------------------------------------------------------

  /** A key inside the module's settings group (`beginGroup("VPAWModelOCT")`). */
  function InGroup(name: string): string {
    "VPAWModelOCT/" + name
  }

  const OctSegDirectoryKey := InGroup("OCTSegDirectory")
  const ConfigFileKey := InGroup("VPAWOCTConfigFile")

  /** `k` is `key` itself or one of its sub-keys. */
  predicate InSubtree(k: string, key: string) {
    k == key || StartsWith(k, key + "/")
  }

  /** `value(key, "")`: the stored string, or "" when the key is absent. */
  function Lookup(entries: map<string, string>, key: string): string {
    if key in entries then entries[key] else ""
  }

  /** `remove(key)`: the key and every sub-key of it are gone and read back as "";
      every other key reads as before. */
  function Removed(entries: map<string, string>, key: string): (r: map<string, string>)
    ensures r.Keys <= entries.Keys && key !in r
    ensures forall k :: InSubtree(k, key) ==> Lookup(r, k) == ""
    ensures forall k :: !InSubtree(k, key) ==> (k in r <==> k in entries) && Lookup(r, k) == Lookup(entries, k)
  {
    assert InSubtree(key, key);
    map k | k in entries && !InSubtree(k, key) :: entries[k]
  }

  /** The store after `setOrRemoveQSetting(qsettings, key, value)`: a value other than
      `None` and "" is stored, anything else removes the key. */
  function SetOrRemove(entries: map<string, string>, key: string, value: Option<string>): map<string, string> {
    if value.Some? && value.value != "" then entries[key := value.value] else Removed(entries, key)
  }

  /** The value written is the value read back, and `None` and "" leave no key behind. */
  lemma SetOrRemoveReadBack(entries: map<string, string>, key: string, value: Option<string>)
    ensures Lookup(SetOrRemove(entries, key, value), key) == value.GetOr("")
    ensures key in SetOrRemove(entries, key, value) <==> value.Some? && value.value != ""
  {
    if !(value.Some? && value.value != "") {
      assert InSubtree(key, key);
    }
  }

  /** A key outside the subtree of `key` keeps its presence and its value. */
  lemma SetOrRemoveFrame(entries: map<string, string>, key: string, value: Option<string>, other: string)
    requires !InSubtree(other, key)
    ensures other in SetOrRemove(entries, key, value) <==> other in entries
    ensures other in entries ==> SetOrRemove(entries, key, value)[other] == entries[other]
  {
  }

  /** Storing the same value twice is storing it once. */
  lemma SetOrRemoveIdempotent(entries: map<string, string>, key: string, value: Option<string>)
    ensures SetOrRemove(SetOrRemove(entries, key, value), key, value) == SetOrRemove(entries, key, value)
  {
    var once := SetOrRemove(entries, key, value);
    if !(value.Some? && value.value != "") {
      assert Removed(once, key) == once;
    }
  }

  /** A store without empty values never gets one. */
  lemma SetOrRemoveKeepsNoEmpty(entries: map<string, string>, key: string, value: Option<string>)
    requires forall k :: k in entries ==> entries[k] != ""
    ensures forall k :: k in SetOrRemove(entries, key, value) ==> SetOrRemove(entries, key, value)[k] != ""
  {
  }

  /** The store after `updateQSettingsFromGUI` with the two paths on the form. */
  function Stored(entries: map<string, string>, octSegDirectory: string, configFile: string): map<string, string> {
    SetOrRemove(SetOrRemove(entries, OctSegDirectoryKey, Some(octSegDirectory)), ConfigFileKey, Some(configFile))
  }

  /** The two keys of the group lie outside each other's subtree. */
  lemma KeysApart()
    ensures !InSubtree(OctSegDirectoryKey, ConfigFileKey) && !InSubtree(ConfigFileKey, OctSegDirectoryKey)
  {
    assert OctSegDirectoryKey[13] != ConfigFileKey[13];
    assert (ConfigFileKey + "/")[13] == ConfigFileKey[13];
    assert (OctSegDirectoryKey + "/")[13] == OctSegDirectoryKey[13];
  }

  /** Whatever the form held when it was stored is what the store gives back, "" included;
      every key outside the two subtrees is left alone. */
  lemma StoredReadsBack(entries: map<string, string>, octSegDirectory: string, configFile: string)
    ensures Lookup(Stored(entries, octSegDirectory, configFile), OctSegDirectoryKey) == octSegDirectory
    ensures Lookup(Stored(entries, octSegDirectory, configFile), ConfigFileKey) == configFile
    ensures forall k :: !InSubtree(k, OctSegDirectoryKey) && !InSubtree(k, ConfigFileKey) ==>
                          Lookup(Stored(entries, octSegDirectory, configFile), k) == Lookup(entries, k)
  {
    var first := SetOrRemove(entries, OctSegDirectoryKey, Some(octSegDirectory));
    SetOrRemoveReadBack(entries, OctSegDirectoryKey, Some(octSegDirectory));
    SetOrRemoveReadBack(first, ConfigFileKey, Some(configFile));
    KeysApart();
    SetOrRemoveFrame(first, ConfigFileKey, Some(configFile), OctSegDirectoryKey);
    forall k | !InSubtree(k, OctSegDirectoryKey) && !InSubtree(k, ConfigFileKey)
      ensures Lookup(Stored(entries, octSegDirectory, configFile), k) == Lookup(entries, k)
    {
      SetOrRemoveFrame(entries, OctSegDirectoryKey, Some(octSegDirectory), k);
      SetOrRemoveFrame(first, ConfigFileKey, Some(configFile), k);
    }
  }

  /** Storing the form again without editing it changes nothing. */
  lemma StoredIdempotent(entries: map<string, string>, octSegDirectory: string, configFile: string)
    ensures Stored(Stored(entries, octSegDirectory, configFile), octSegDirectory, configFile)
         == Stored(entries, octSegDirectory, configFile)
  {
    var e1 := SetOrRemove(entries, OctSegDirectoryKey, Some(octSegDirectory));
    var e2 := SetOrRemove(e1, ConfigFileKey, Some(configFile));
    var e3 := SetOrRemove(e2, OctSegDirectoryKey, Some(octSegDirectory));
    KeysApart();
    // Both writes act on disjoint subtrees, so the first one's effect survives the second.
    assert e3 == e2 by {
      forall k ensures (k in e3 <==> k in e2) && (k in e3 ==> e3[k] == e2[k]) {
        if InSubtree(k, OctSegDirectoryKey) {
          SetOrRemoveReadBack(e2, OctSegDirectoryKey, Some(octSegDirectory));
          SetOrRemoveReadBack(entries, OctSegDirectoryKey, Some(octSegDirectory));
          if k != OctSegDirectoryKey {
            assert !InSubtree(k, ConfigFileKey) by {
              SubkeysApart(k);
            }
            SetOrRemoveFrame(e1, ConfigFileKey, Some(configFile), k);
          } else {
            SetOrRemoveFrame(e1, ConfigFileKey, Some(configFile), k);
          }
        } else {
          SetOrRemoveFrame(e2, OctSegDirectoryKey, Some(octSegDirectory), k);
        }
      }
    }
    SetOrRemoveIdempotent(e2, ConfigFileKey, Some(configFile));
  }

  /** A sub-key of the directory key is not under the configuration-file key. */
  lemma SubkeysApart(k: string)
    requires StartsWith(k, OctSegDirectoryKey + "/")
    ensures !InSubtree(k, ConfigFileKey)
  {
    assert k[13] == (OctSegDirectoryKey + "/")[13] == OctSegDirectoryKey[13];
    assert (ConfigFileKey + "/")[13] == ConfigFileKey[13];
  }

  /** The persistent store behind every `qt.QSettings()` object. */
  class Settings {
    var entries: map<string, string>

    constructor(entries: map<string, string>)
      ensures this.entries == entries
    {
      this.entries := entries;
    }

    function Value(key: string): string
      reads this
    {
      Lookup(entries, key)
    }

    method SetValue(key: string, value: string)
      modifies this
      ensures entries == old(entries)[key := value]
    {
      entries := entries[key := value];
    }

    method Remove(key: string)
      modifies this
      ensures entries == Removed(old(entries), key)
    {
      entries := Removed(entries, key);
    }
  }

  // ---- The widget --------------------------------------------------------------------

  /** `VPAWModelOCTWidget`: the two path fields of its form, the store they are saved in
      and the `_updatingGUIFromQSettings` flag. */
  class ModelOCTWidget {
    const settings: Settings
    var updatingGUIFromQSettings: bool
    var octSegDirectoryPath: string
    var configFilePath: string

    constructor(settings: Settings)
      ensures this.settings == settings
      ensures !updatingGUIFromQSettings && octSegDirectoryPath == "" && configFilePath == ""
    {
      this.settings := settings;
      updatingGUIFromQSettings := false;
      octSegDirectoryPath := "";
      configFilePath := "";
    }

    /** `setOrRemoveQSetting` */
    method SetOrRemoveQSetting(key: string, value: Option<string>)
      modifies settings
      ensures settings.entries == SetOrRemove(old(settings.entries), key, value)
    {
      if value.Some? && value.value != "" {
        settings.SetValue(key, value.value);
      } else {
        settings.Remove(key);
      }
    }

    /** `updateQSettingsFromGUI`: saves both paths unless the form is being filled from
        the store, and leaves the flag as it found it. */
    method UpdateQSettingsFromGUI()
      modifies this, settings
      ensures settings.entries == if old(updatingGUIFromQSettings) then old(settings.entries)
                                  else Stored(old(settings.entries), octSegDirectoryPath, configFilePath)
      ensures updatingGUIFromQSettings == old(updatingGUIFromQSettings)
      ensures octSegDirectoryPath == old(octSegDirectoryPath) && configFilePath == old(configFilePath)
    {
      if updatingGUIFromQSettings {
        return;
      }
      SetOrRemoveQSetting(OctSegDirectoryKey, Some(octSegDirectoryPath));
      SetOrRemoveQSetting(ConfigFileKey, Some(configFilePath));
      // The button states and tooltips are refreshed while the flag is raised.
      updatingGUIFromQSettings := true;
      updatingGUIFromQSettings := false;
    }

    /** Setting the directory field: its `currentPathChanged` signal runs
        `updateQSettingsFromGUI`. Qt sends the signal only when the path actually
        changes; the model runs the update on every call. The two differ only when the
        path is set to its current value with the flag lowered: the model then rewrites
        the store from the unchanged fields, where Qt would leave the store alone. With
        the flag raised, as in `updateGUIFromQSettings`, the update writes nothing. */
    method SetOctSegDirectoryPath(path: string)
      modifies this, settings
      ensures octSegDirectoryPath == path && configFilePath == old(configFilePath)
      ensures updatingGUIFromQSettings == old(updatingGUIFromQSettings)
      ensures settings.entries == if old(updatingGUIFromQSettings) then old(settings.entries)
                                  else Stored(old(settings.entries), path, configFilePath)
    {
      octSegDirectoryPath := path;
      UpdateQSettingsFromGUI();
    }

    /** Setting the configuration-file field, with the same signal (and the same
        unconditional update). */
    method SetConfigFilePath(path: string)
      modifies this, settings
      ensures configFilePath == path && octSegDirectoryPath == old(octSegDirectoryPath)
      ensures updatingGUIFromQSettings == old(updatingGUIFromQSettings)
      ensures settings.entries == if old(updatingGUIFromQSettings) then old(settings.entries)
                                  else Stored(old(settings.entries), octSegDirectoryPath, path)
    {
      configFilePath := path;
      UpdateQSettingsFromGUI();
    }

    /** `updateGUIFromQSettings`: fills both fields from the store ("" for an absent key)
        with the flag raised, so the signals the fields send write nothing back; the flag
        is down again afterwards. */
    method UpdateGUIFromQSettings()
      modifies this, settings
      ensures octSegDirectoryPath == Lookup(old(settings.entries), OctSegDirectoryKey)
      ensures configFilePath == Lookup(old(settings.entries), ConfigFileKey)
      ensures settings.entries == old(settings.entries)
      ensures !updatingGUIFromQSettings
    {
      updatingGUIFromQSettings := true;
      SetOctSegDirectoryPath(settings.Value(OctSegDirectoryKey));
      SetConfigFilePath(settings.Value(ConfigFileKey));
      updatingGUIFromQSettings := false;
    }
  }

  // ---- The logic ---------------------------------------------------------------------

  /** Whether `runOCTSeg` finds the OCTSeg code base linked, linking it first when no
      directory is recorded yet: the given directory must be a directory, the
      dependencies must be in place and the OCTSeg modules must import. */
  predicate Linked(recorded: Option<string>, fs: map<string, Entry>, directory: string,
                   dependenciesReady: bool, importsFound: bool) {
    recorded.Some? || (IsDirectory(fs, directory) && dependenciesReady && importsFound)
  }

  /** The directory recorded after that step: `ensureModulePath` records the directory
      before it tries the imports, so a failed import still leaves it recorded. A directory
      ends up recorded exactly when linking would succeed had the imports been found; a
      newly recorded one is the chosen directory, which exists; a link that holds whatever
      the imports do keeps what was recorded. */
  function RecordedAfterLink(recorded: Option<string>, fs: map<string, Entry>, directory: string,
                             dependenciesReady: bool): (r: Option<string>)
    ensures r.Some? <==> Linked(recorded, fs, directory, dependenciesReady, true)
    ensures r != recorded ==> r == Some(directory) && IsDirectory(fs, directory) && dependenciesReady
    ensures Linked(recorded, fs, directory, dependenciesReady, false) ==> r == recorded
  {
    if recorded.None? && IsDirectory(fs, directory) && dependenciesReady then Some(directory) else recorded
  }

  /** `runSegmentation` succeeds exactly when it can change into the recorded directory and
      the pipeline does not raise. */
  predicate SegmentationSucceeds(recorded: Option<string>, fs: map<string, Entry>, pipelineRaises: bool) {
    recorded.Some? && IsDirectory(fs, recorded.value) && !pipelineRaises
  }

  /** A failed link that got as far as the imports still records the directory, so a
      second `runOCTSeg` skips linking and goes on to the pipeline. */
  lemma FailedImportStillRecords(fs: map<string, Entry>, directory: string)
    requires IsDirectory(fs, directory)
    ensures !Linked(None, fs, directory, true, false)
    ensures RecordedAfterLink(None, fs, directory, true) == Some(directory)
    ensures Linked(RecordedAfterLink(None, fs, directory, true), fs, directory, true, false)
  {
  }

  /** `VPAWModelOCTLogic`: the recorded OCTSeg directory (`None` while the attribute is
      unset), the module search path, the working directory and the configuration files
      the pipeline was started with. */
  class ModelOCTLogic {
    var octSegDirectory: Option<string>
    var sysPath: seq<string>
    var cwd: string
    var pipelineRuns: seq<string>

    constructor(sysPath: seq<string>, cwd: string)
      ensures octSegDirectory == None && this.sysPath == sysPath && this.cwd == cwd && pipelineRuns == []
    {
      octSegDirectory := None;
      this.sysPath := sysPath;
      this.cwd := cwd;
      pipelineRuns := [];
    }

    /** `ensureModulePath`: records the directory, puts it at the front of the search path
        unless it is already there, then reports whether the OCTSeg modules import. */
    method EnsureModulePath(directory: string, importsFound: bool) returns (ok: bool)
      modifies this
      ensures ok == importsFound
      ensures octSegDirectory == Some(directory)
      ensures sysPath == if directory in old(sysPath) then old(sysPath) else [directory] + old(sysPath)
      ensures directory in sysPath
      ensures cwd == old(cwd) && pipelineRuns == old(pipelineRuns)
    {
      octSegDirectory := Some(directory);
      if directory !in sysPath {
        sysPath := [directory] + sysPath;
      }
      ok := importsFound;
    }

    /** `linkOCTSeg`: the dependencies first; the module path only when they are ready. */
    method LinkOCTSeg(directory: string, dependenciesReady: bool, importsFound: bool) returns (ok: bool)
      modifies this
      ensures ok == (dependenciesReady && importsFound)
      ensures octSegDirectory == if dependenciesReady then Some(directory) else old(octSegDirectory)
      ensures !dependenciesReady ==> sysPath == old(sysPath)
      ensures dependenciesReady ==> directory in sysPath
      ensures cwd == old(cwd) && pipelineRuns == old(pipelineRuns)
    {
      ok := false;
      if dependenciesReady {
        ok := EnsureModulePath(directory, importsFound);
      }
    }

    /** `runSegmentation`: changes into the recorded directory and starts the pipeline with
        the configuration file; any exception makes the result false; the working directory
        is restored either way. */
    method RunSegmentation(fs: map<string, Entry>, configFile: string, pipelineRaises: bool) returns (ok: bool)
      modifies this
      ensures ok == SegmentationSucceeds(octSegDirectory, fs, pipelineRaises)
      ensures pipelineRuns == old(pipelineRuns)
                              + (if octSegDirectory.Some? && IsDirectory(fs, octSegDirectory.value)
                                 then [configFile] else [])
      ensures cwd == old(cwd)
      ensures octSegDirectory == old(octSegDirectory) && sysPath == old(sysPath)
    {
      var saved := cwd;
      ok := true;
      if octSegDirectory.None? || !IsDirectory(fs, octSegDirectory.value) {
        // Reading the unset attribute or changing into a missing directory raises.
        ok := false;
      } else {
        cwd := octSegDirectory.value;
        pipelineRuns := pipelineRuns + [configFile];
        if pipelineRaises {
          ok := false;
        }
      }
      cwd := saved;
    }

    /** `runOCTSeg`: without a recorded directory, links the given one if it is a
        directory; gives up with false when that fails, otherwise runs the segmentation. */
    method RunOCTSeg(fs: map<string, Entry>, directory: string, configFile: string,
                     dependenciesReady: bool, importsFound: bool, pipelineRaises: bool)
      returns (ok: bool)
      modifies this
      ensures !Linked(old(octSegDirectory), fs, directory, dependenciesReady, importsFound) ==>
                !ok && pipelineRuns == old(pipelineRuns)
      ensures ok <==> Linked(old(octSegDirectory), fs, directory, dependenciesReady, importsFound)
                      && SegmentationSucceeds(octSegDirectory, fs, pipelineRaises)
      ensures octSegDirectory == RecordedAfterLink(old(octSegDirectory), fs, directory, dependenciesReady)
      ensures pipelineRuns == old(pipelineRuns)
                              + (if Linked(old(octSegDirectory), fs, directory, dependenciesReady, importsFound)
                                    && octSegDirectory.Some? && IsDirectory(fs, octSegDirectory.value)
                                 then [configFile] else [])
      ensures old(octSegDirectory).Some? ==> sysPath == old(sysPath)
      ensures cwd == old(cwd)
      ensures ok ==> (old(octSegDirectory).Some? || IsDirectory(fs, directory)) && !pipelineRaises
      ensures ok ==> |pipelineRuns| == |old(pipelineRuns)| + 1
    {
      if octSegDirectory.None? {
        var linked := false;
        if IsDirectory(fs, directory) {
          linked := LinkOCTSeg(directory, dependenciesReady, importsFound);
        }
        if !linked {
          return false;
        }
      }
      ok := RunSegmentation(fs, configFile, pipelineRaises);
    }
  }
}
