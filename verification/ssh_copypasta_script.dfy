/**
 The older version of the program (ssh-copypasta.py): the same reconciliation
 rules written as module functions over global configuration. Its name test
 only asks for a trailing `pub`, and its log lines carry no timestamp.
 */
module SshCopypastaScript {
  import opened KeyFiles

  /** The name test of this version is `^.*pub$`: no dot is required. */
  const KEY_TAIL: string := "pub"

  function NewKeyMessage(name: string): string {
    "New public key: " + name + ", regenerating authorized_keys"
  }

  function RemovedMessage(fileName: string): string {
    "Removed file: " + fileName + ", regenerating authorized_keys"
  }

  /**
   The script's module globals (`watch_dir`, `auth_keys`, `log_file`) as the
   fixed configuration of one engine object, with the texts of the
   authorized_keys and log files as its state.
   */
  class Script {
    const watchDir: string
    const authKeys: string
    const logFile: string
    /** The text of the file at `authKeys`. */
    var authorizedKeys: string
    /** The text of the file at `logFile`. */
    var logText: string

    constructor (watchDir: string, authKeys: string, logFile: string, authorizedKeys: string, logText: string)
      ensures this.watchDir == watchDir && this.authKeys == authKeys && this.logFile == logFile
      ensures this.authorizedKeys == authorizedKeys && this.logText == logText
    {
      this.watchDir := watchDir;
      this.authKeys := authKeys;
      this.logFile := logFile;
      this.authorizedKeys := authorizedKeys;
      this.logText := logText;
    }

    /** The effect `add_key(path, name)` has when the disk is `fs`, authorized_keys holds `keysText` and the log holds `logBefore`. */
    function AddKeyEffect(path: string, name: string, fs: FileSystem, keysText: string, logBefore: string): Effect
    {
      var fileName := path + "/" + name;
      match IsPubKey(fs, fileName, KEY_TAIL)
      case OsError(p) => Effect(keysText, logBefore, OsError(p))
      case Ok(v) =>
        if !v.0 then Effect(keysText, logBefore + InvalidFormatMessage(fileName) + "\n", Ok(()))
        else
          var rebuild := Rebuilt(fs, watchDir, KEY_TAIL);
          Effect(rebuild.text, logBefore + NewKeyMessage(name) + "\n", rebuild.outcome)
    }

    /** The effect `remove_key(path, name)` has when the disk is `fs`, authorized_keys holds `keysText` and the log holds `logBefore`. */
    function RemoveKeyEffect(path: string, name: string, fs: FileSystem, keysText: string, logBefore: string): Effect
    {
      var rebuild := Rebuilt(fs, watchDir, KEY_TAIL);
      Effect(rebuild.text, logBefore + RemovedMessage(path + "/" + name) + "\n", rebuild.outcome)
    }

    /** `log` always appends the message and a newline; there is no timestamp and no disabled case. */
    method Log(msg: string)
      modifies this`logText
      ensures logText == old(logText) + msg + "\n"
    {
      logText := logText + (msg + "\n");
    }

    /**
     Truncates authorized_keys, then appends the block of every valid entry of
     the watch directory in listing order.
     */
    method BuildAuthorizedKeysFile(fs: FileSystem) returns (r: Outcome<()>)
      modifies this`authorizedKeys
      ensures authorizedKeys == Rebuilt(fs, watchDir, KEY_TAIL).text
      ensures r == Rebuilt(fs, watchDir, KEY_TAIL).outcome
    {
      authorizedKeys := "";
      if watchDir !in fs.dirs {
        return OsError(watchDir);
      }
      var entries := fs.dirs[watchDir];
      var i := 0;
      while i < |entries|
        invariant 0 <= i <= |entries|
        invariant Scan(fs, watchDir, entries[..i], KEY_TAIL).failed == None
        invariant authorizedKeys == Joined(Scan(fs, watchDir, entries[..i], KEY_TAIL).keys)
      {
        var filePath := watchDir + "/" + entries[i];
        var check := IsPubKey(fs, filePath, KEY_TAIL);
        assert entries[..i + 1][..i] == entries[..i];
        if check.OsError? {
          ScanAppend(fs, watchDir, entries[..i + 1], entries[i + 1..], KEY_TAIL);
          assert entries[..i + 1] + entries[i + 1..] == entries;
          return OsError(check.path);
        }
        var (success, key) := check.value;
        if success {
          authorizedKeys := authorizedKeys + ("\n" + key.value + "\n");
        }
        i := i + 1;
      }
      assert entries[..i] == entries;
      r := Ok(());
    }

    /** An invalid created entry is logged and nothing is rebuilt; a valid one is logged and then rebuilt. */
    method AddKey(path: string, name: string, fs: FileSystem) returns (r: Outcome<()>)
      modifies this`authorizedKeys, this`logText
      ensures Effect(authorizedKeys, logText, r) == AddKeyEffect(path, name, fs, old(authorizedKeys), old(logText))
    {
      var fileName := path + "/" + name;
      var check := IsPubKey(fs, fileName, KEY_TAIL);
      if check.OsError? {
        return OsError(check.path);
      }
      var (s, _) := check.value;
      if !s {
        Log(InvalidFormatMessage(fileName));
        return Ok(());
      }
      Log(NewKeyMessage(name));
      r := BuildAuthorizedKeysFile(fs);
    }

    /** A deleted entry is always logged and always triggers a rebuild, without validation. */
    method RemoveKey(path: string, name: string, fs: FileSystem) returns (r: Outcome<()>)
      modifies this`authorizedKeys, this`logText
      ensures Effect(authorizedKeys, logText, r) == RemoveKeyEffect(path, name, fs, old(authorizedKeys), old(logText))
    {
      var fileName := path + "/" + name;
      Log(RemovedMessage(fileName));
      r := BuildAuthorizedKeysFile(fs);
    }

    /** `OnCreateDeleteHandler.process_IN_CREATE`. */
    method ProcessInCreate(event: Event, fs: FileSystem) returns (r: Outcome<()>)
      modifies this`authorizedKeys, this`logText
      ensures Effect(authorizedKeys, logText, r) ==
        AddKeyEffect(event.path, event.name, fs, old(authorizedKeys), old(logText))
    {
      r := AddKey(event.path, event.name, fs);
    }

    /** `OnCreateDeleteHandler.process_IN_DELETE`. */
    method ProcessInDelete(event: Event, fs: FileSystem) returns (r: Outcome<()>)
      modifies this`authorizedKeys, this`logText
      ensures Effect(authorizedKeys, logText, r) ==
        RemoveKeyEffect(event.path, event.name, fs, old(authorizedKeys), old(logText))
    {
      r := RemoveKey(event.path, event.name, fs);
    }

    /** pyinotify's dispatch of an event to the handler's two methods. */
    method Dispatch(event: Event, fs: FileSystem) returns (r: Outcome<()>)
      modifies this`authorizedKeys, this`logText
      ensures event.kind == InCreate ==>
        Effect(authorizedKeys, logText, r) ==
          AddKeyEffect(event.path, event.name, fs, old(authorizedKeys), old(logText))
      ensures event.kind == InDelete ==>
        Effect(authorizedKeys, logText, r) ==
          RemoveKeyEffect(event.path, event.name, fs, old(authorizedKeys), old(logText))
    {
      match event.kind
      case InCreate => r := ProcessInCreate(event, fs);
      case InDelete => r := ProcessInDelete(event, fs);
    }
  }

  // ---------------------------------------------------------------------------
  // Properties

  /** Without the dot, `x.notpub` passes the name test and is decided by its content. */
  lemma NotpubPassesNameTest(fs: FileSystem, content: string)
    requires "x.notpub" in fs.files && fs.files["x.notpub"] == content
    ensures IsPubKey(fs, "x.notpub", KEY_TAIL) ==
      if StartsWith(content, KEY_PREFIX) then Ok((true, Some(content))) else Ok((false, None))
  {
  }

  /** Every name the current version accepts is accepted by this one, on the same disk. */
  lemma NameTestWeakerThanCurrent(path: string)
    requires MatchesTail(path, ".pub")
    ensures MatchesTail(path, KEY_TAIL)
  {
  }

  /** `log` keeps the earlier text and adds exactly one line for a message without newlines. */
  lemma LogAppendsOneLine(logText: string, msg: string)
    requires logText == [] || logText[|logText| - 1] == '\n'
    requires NoNewline(msg)
    ensures logText <= logText + msg + "\n"
    ensures Lines(logText + msg + "\n") == Lines(logText) + 1
  {
    NoNewlineCount(msg);
    NewlineCountAppend(msg, "\n");
    AppendLines(logText, msg + "\n");
    assert logText + msg + "\n" == logText + (msg + "\n");
  }

  /** An entry that fails validation leaves authorized_keys alone and adds one `invalid format` line. */
  lemma CreateInvalidKeepsKeys(h: Script, path: string, name: string, fs: FileSystem,
                               authorizedKeys: string, logText: string)
    requires IsPubKey(fs, path + "/" + name, KEY_TAIL) == Ok((false, None))
    ensures h.AddKeyEffect(path, name, fs, authorizedKeys, logText) ==
      Effect(authorizedKeys, logText + InvalidFormatMessage(path + "/" + name) + "\n", Ok(()))
  {
  }

  /** A valid key is logged first and then the file is rebuilt. */
  lemma CreateValidRebuilds(h: Script, path: string, name: string, fs: FileSystem,
                            authorizedKeys: string, logText: string)
    requires IsKeyEntry(fs, path, name, KEY_TAIL)
    ensures h.AddKeyEffect(path, name, fs, authorizedKeys, logText) ==
      Effect(Rebuilt(fs, h.watchDir, KEY_TAIL).text, logText + NewKeyMessage(name) + "\n",
             Rebuilt(fs, h.watchDir, KEY_TAIL).outcome)
  {
  }

  /** Every delete is logged and rebuilds, whatever the entry was. */
  lemma DeleteAlwaysRebuilds(h: Script, path: string, name: string, fs: FileSystem,
                             authorizedKeys: string, logText: string)
    ensures h.RemoveKeyEffect(path, name, fs, authorizedKeys, logText) ==
      Effect(Rebuilt(fs, h.watchDir, KEY_TAIL).text, logText + RemovedMessage(path + "/" + name) + "\n",
             Rebuilt(fs, h.watchDir, KEY_TAIL).outcome)
  {
  }
}
