/**
 The current version of the program (ssh_copypasta.py): an inotify handler
 that keeps authorized_keys equal to the blocks of the valid `*.pub` files of
 the watch directory and writes a timestamped audit line for every event.
 */
module SshCopypasta {
  import opened KeyFiles

  /** The name test of this version is `^.*\.pub$`. */
  const KEY_TAIL: string := ".pub"

  /** One line of the audit log: `[<timestamp>] <msg>`. */
  function LogRecord(timestamp: string, msg: string): string {
    "[" + timestamp + "] " + msg + "\n"
  }

  function NewKeyMessage(name: string): string {
    "New public key: `" + name + "`, regenerating authorized_keys"
  }

  function RemovedMessage(fileName: string): string {
    "Removed file: `" + fileName + "`, regenerating authorized_keys"
  }

  /**
   The pyinotify handler. Its configuration is fixed at construction; the texts
   of the authorized_keys file and of the log file are the state its methods
   change. The filesystem it reads and the wall-clock timestamp are passed in
   with every call.
   */
  class OnCreateDeleteHandler {
    const authKeys: string
    const watchDir: string
    const logFile: Option<string>
    /** The text of the file at `authKeys`. */
    var authorizedKeys: string
    /** The text of the log file (left alone when no log file is configured). */
    var logText: string

    /** `__init__` stores the configuration; the two texts are what the files already hold. */
    constructor (authKeys: string, watchDir: string, logFile: Option<string>, authorizedKeys: string, logText: string)
      ensures this.authKeys == authKeys && this.watchDir == watchDir && this.logFile == logFile
      ensures this.authorizedKeys == authorizedKeys && this.logText == logText
    {
      this.authKeys := authKeys;
      this.watchDir := watchDir;
      this.logFile := logFile;
      this.authorizedKeys := authorizedKeys;
      this.logText := logText;
    }

    /** A log file is configured: `log_file` is neither None nor the empty string. */
    predicate Logging() {
      logFile.Some? && logFile.value != ""
    }

    /** The log text after `log(msg)` at time `timestamp`, when the log held `logBefore`. */
    function Logged(logBefore: string, timestamp: string, msg: string): string {
      if Logging() then logBefore + LogRecord(timestamp, msg) else logBefore
    }

    /** The effect `add_key(path, name)` has when the disk is `fs`, authorized_keys holds `keysText` and the log holds `logBefore`. */
    function AddKeyEffect(path: string, name: string, fs: FileSystem, timestamp: string,
                          keysText: string, logBefore: string): Effect
    {
      var fileName := path + "/" + name;
      match IsPubKey(fs, fileName, KEY_TAIL)
      case OsError(p) => Effect(keysText, logBefore, OsError(p))
      case Ok(v) =>
        if !v.0 then Effect(keysText, Logged(logBefore, timestamp, InvalidFormatMessage(fileName)), Ok(()))
        else
          var rebuild := Rebuilt(fs, watchDir, KEY_TAIL);
          Effect(rebuild.text, Logged(logBefore, timestamp, NewKeyMessage(name)), rebuild.outcome)
    }

    /** The effect `remove_key(path, name)` has when the disk is `fs`, authorized_keys holds `keysText` and the log holds `logBefore`. */
    function RemoveKeyEffect(path: string, name: string, fs: FileSystem, timestamp: string,
                             keysText: string, logBefore: string): Effect
    {
      var rebuild := Rebuilt(fs, watchDir, KEY_TAIL);
      Effect(rebuild.text, Logged(logBefore, timestamp, RemovedMessage(path + "/" + name)), rebuild.outcome)
    }

    method Log(msg: string, timestamp: string)
      modifies this`logText
      ensures logText == Logged(old(logText), timestamp, msg)
      ensures Logging() ==> logText == old(logText) + LogRecord(timestamp, msg)
      ensures !Logging() ==> logText == old(logText)
    {
      if !Logging() {
        return;
      }
      var timeStr := "[" + timestamp + "] ";
      logText := logText + (timeStr + msg + "\n");
    }

    method ProcessInCreate(event: Event, fs: FileSystem, timestamp: string) returns (r: Outcome<()>)
      modifies this`authorizedKeys, this`logText
      ensures Effect(authorizedKeys, logText, r) ==
        AddKeyEffect(event.path, event.name, fs, timestamp, old(authorizedKeys), old(logText))
    {
      r := AddKey(event.path, event.name, fs, timestamp);
    }

    method ProcessInDelete(event: Event, fs: FileSystem, timestamp: string) returns (r: Outcome<()>)
      modifies this`authorizedKeys, this`logText
      ensures Effect(authorizedKeys, logText, r) ==
        RemoveKeyEffect(event.path, event.name, fs, timestamp, old(authorizedKeys), old(logText))
    {
      r := RemoveKey(event.path, event.name, fs, timestamp);
    }

    /** pyinotify's dispatch of an event to `process_IN_CREATE` or `process_IN_DELETE`. */
    method Dispatch(event: Event, fs: FileSystem, timestamp: string) returns (r: Outcome<()>)
      modifies this`authorizedKeys, this`logText
      ensures Effect(authorizedKeys, logText, r) ==
        EventEffect(this, event, fs, timestamp, old(authorizedKeys), old(logText))
    {
      match event.kind
      case InCreate => r := ProcessInCreate(event, fs, timestamp);
      case InDelete => r := ProcessInDelete(event, fs, timestamp);
    }

    /**
     Truncates authorized_keys, then appends the block of every valid entry of
     the watch directory in listing order. The result depends on the directory
     alone: the old text is discarded, and a second rebuild writes the same text.
     */
    method BuildAuthorizedKeysFile(fs: FileSystem) returns (r: Outcome<()>)
      modifies this`authorizedKeys
      ensures authorizedKeys == Rebuilt(fs, watchDir, KEY_TAIL).text
      ensures r == Rebuilt(fs, watchDir, KEY_TAIL).outcome
    {
      authorizedKeys := "";
      if watchDir !in fs.dirs {
        return OsError(watchDir);
      }
      var entries := fs.dirs[watchDir];
      var i := 0;
      while i < |entries|
        invariant 0 <= i <= |entries|
        invariant Scan(fs, watchDir, entries[..i], KEY_TAIL).failed == None
        invariant authorizedKeys == Joined(Scan(fs, watchDir, entries[..i], KEY_TAIL).keys)
      {
        var filePath := watchDir + "/" + entries[i];
        var check := IsPubKey(fs, filePath, KEY_TAIL);
        assert entries[..i + 1][..i] == entries[..i];
        if check.OsError? {
          ScanAppend(fs, watchDir, entries[..i + 1], entries[i + 1..], KEY_TAIL);
          assert entries[..i + 1] + entries[i + 1..] == entries;
          return OsError(check.path);
        }
        var (success, key) := check.value;
        if success {
          authorizedKeys := authorizedKeys + ("\n" + key.value + "\n");
        }
        i := i + 1;
      }
      assert entries[..i] == entries;
      r := Ok(());
    }

    /**
     A created entry is validated; an invalid one (whatever the reason, a wrong
     suffix included) is logged and nothing else happens; a valid one is logged
     and then the whole file is rebuilt. If opening it raises, nothing changes.
     */
    method AddKey(path: string, name: string, fs: FileSystem, timestamp: string) returns (r: Outcome<()>)
      modifies this`authorizedKeys, this`logText
      ensures Effect(authorizedKeys, logText, r) ==
        AddKeyEffect(path, name, fs, timestamp, old(authorizedKeys), old(logText))
    {
      var fileName := path + "/" + name;
      var check := IsPubKey(fs, fileName, KEY_TAIL);
      if check.OsError? {
        return OsError(check.path);
      }
      var (b, _) := check.value;
      if !b {
        Log(InvalidFormatMessage(fileName), timestamp);
        return Ok(());
      }
      Log(NewKeyMessage(name), timestamp);
      r := BuildAuthorizedKeysFile(fs);
    }

    /** A deleted entry is never validated: it is always logged and always triggers a rebuild. */
    method RemoveKey(path: string, name: string, fs: FileSystem, timestamp: string) returns (r: Outcome<()>)
      modifies this`authorizedKeys, this`logText
      ensures Effect(authorizedKeys, logText, r) ==
        RemoveKeyEffect(path, name, fs, timestamp, old(authorizedKeys), old(logText))
    {
      var fileName := path + "/" + name;
      Log(RemovedMessage(fileName), timestamp);
      r := BuildAuthorizedKeysFile(fs);
    }
  }

  // ---------------------------------------------------------------------------
  // Properties of the event rules

  /** `log` only appends: earlier text is kept, and one line is added when logging is on. */
  lemma LogAppendsOneLine(h: OnCreateDeleteHandler, logText: string, timestamp: string, msg: string)
    requires logText == [] || logText[|logText| - 1] == '\n'
    requires NoNewline(timestamp) && NoNewline(msg)
    ensures logText <= h.Logged(logText, timestamp, msg)
    ensures Lines(h.Logged(logText, timestamp, msg)) == Lines(logText) + (if h.Logging() then 1 else 0)
  {
    if h.Logging() {
      var record := LogRecord(timestamp, msg);
      var body := "[" + timestamp + "] " + msg;
      assert NoNewline(body);
      NoNewlineCount(body);
      NewlineCountAppend(body, "\n");
      assert record == body + "\n";
      AppendLines(logText, record);
    }
  }

  /**
   Creating an entry that fails validation, a wrong name included, leaves
   authorized_keys alone and appends exactly one `invalid format` line.
   */
  lemma CreateInvalidKeepsKeys(h: OnCreateDeleteHandler, path: string, name: string, fs: FileSystem,
                               timestamp: string, authorizedKeys: string, logText: string)
    requires IsPubKey(fs, path + "/" + name, KEY_TAIL) == Ok((false, None))
    ensures h.AddKeyEffect(path, name, fs, timestamp, authorizedKeys, logText) ==
      Effect(authorizedKeys, h.Logged(logText, timestamp, InvalidFormatMessage(path + "/" + name)), Ok(()))
  {
  }

  /** A name without the `.pub` suffix is rejected on its name alone, whatever the file holds. */
  lemma CreateWrongSuffixLogged(h: OnCreateDeleteHandler, path: string, name: string, fs: FileSystem,
                                timestamp: string, authorizedKeys: string, logText: string)
    requires NoNewline(path + "/" + name) && !EndsWith(path + "/" + name, KEY_TAIL)
    ensures h.AddKeyEffect(path, name, fs, timestamp, authorizedKeys, logText) ==
      Effect(authorizedKeys, h.Logged(logText, timestamp, InvalidFormatMessage(path + "/" + name)), Ok(()))
  {
  }

  /**
   Creating a valid key logs `New public key` first and then rebuilds: the log
   line is there even when the rebuild raises.
   */
  lemma CreateValidRebuilds(h: OnCreateDeleteHandler, path: string, name: string, fs: FileSystem,
                            timestamp: string, authorizedKeys: string, logText: string)
    requires IsKeyEntry(fs, path, name, KEY_TAIL)
    ensures h.AddKeyEffect(path, name, fs, timestamp, authorizedKeys, logText) ==
      Effect(Rebuilt(fs, h.watchDir, KEY_TAIL).text, h.Logged(logText, timestamp, NewKeyMessage(name)),
             Rebuilt(fs, h.watchDir, KEY_TAIL).outcome)
  {
  }

  /** A delete event, whatever the entry was, is logged and rebuilds; the old text of authorized_keys does not matter. */
  lemma DeleteAlwaysRebuilds(h: OnCreateDeleteHandler, path: string, name: string, fs: FileSystem,
                             timestamp: string, authorizedKeys: string, logText: string)
    ensures h.RemoveKeyEffect(path, name, fs, timestamp, authorizedKeys, logText) ==
      Effect(Rebuilt(fs, h.watchDir, KEY_TAIL).text, h.Logged(logText, timestamp, RemovedMessage(path + "/" + name)),
             Rebuilt(fs, h.watchDir, KEY_TAIL).outcome)
  {
  }

  /** Validation raising (the file vanished before it was read) changes nothing and writes no log line. */
  lemma CreateUnreadableRaises(h: OnCreateDeleteHandler, path: string, name: string, fs: FileSystem,
                               timestamp: string, authorizedKeys: string, logText: string)
    requires MatchesTail(path + "/" + name, KEY_TAIL) && path + "/" + name !in fs.files
    ensures h.AddKeyEffect(path, name, fs, timestamp, authorizedKeys, logText) ==
      Effect(authorizedKeys, logText, OsError(path + "/" + name))
  {
  }

  /** The effect of one event: that of `add_key` for a create, of `remove_key` for a delete. */
  function EventEffect(h: OnCreateDeleteHandler, event: Event, fs: FileSystem, timestamp: string,
                       authorizedKeys: string, logText: string): Effect
  {
    match event.kind
    case InCreate => h.AddKeyEffect(event.path, event.name, fs, timestamp, authorizedKeys, logText)
    case InDelete => h.RemoveKeyEffect(event.path, event.name, fs, timestamp, authorizedKeys, logText)
  }

  /**
   Every event whose validation does not raise appends exactly one line to the
   log and keeps the earlier lines; so N copied keys give N log lines, and
   deleting them N more.
   */
  lemma EventLogsOneLine(h: OnCreateDeleteHandler, event: Event, fs: FileSystem, timestamp: string,
                         authorizedKeys: string, logText: string)
    requires h.Logging()
    requires logText == [] || logText[|logText| - 1] == '\n'
    requires NoNewline(timestamp) && NoNewline(event.path) && NoNewline(event.name)
    requires event.kind == InCreate ==> IsPubKey(fs, event.path + "/" + event.name, KEY_TAIL).Ok?
    ensures logText <= EventEffect(h, event, fs, timestamp, authorizedKeys, logText).logText
    ensures Lines(EventEffect(h, event, fs, timestamp, authorizedKeys, logText).logText) == Lines(logText) + 1
  {
    var fileName := event.path + "/" + event.name;
    assert NoNewline(fileName);
    match event.kind
    case InCreate =>
      if IsPubKey(fs, fileName, KEY_TAIL).value.0 {
        LogAppendsOneLine(h, logText, timestamp, NewKeyMessage(event.name));
      } else {
        LogAppendsOneLine(h, logText, timestamp, InvalidFormatMessage(fileName));
      }
    case InDelete =>
      LogAppendsOneLine(h, logText, timestamp, RemovedMessage(fileName));
  }

  // ---------------------------------------------------------------------------
  // The examples of the repository's tests

  /** An empty `.pub` file is not a key, whatever else the disk holds. */
  lemma EmptyPubRejected(fs: FileSystem)
    requires "test/empty.pub" in fs.files && fs.files["test/empty.pub"] == ""
    ensures IsPubKey(fs, "test/empty.pub", KEY_TAIL) == Ok((false, None))
  {
  }

  /** `garbage_pub.notpub` fails the name test, whatever it holds. */
  lemma GarbageNameRejected(fs: FileSystem)
    ensures IsPubKey(fs, "test/garbage_pub.notpub", KEY_TAIL) == Ok((false, None))
  {
  }

  /** A real key file is returned with its text unchanged, final newline included, whatever else the disk holds. */
  lemma RealKeyAccepted(fs: FileSystem, key: string)
    requires "test/realkey.pub" in fs.files && fs.files["test/realkey.pub"] == key
    requires StartsWith(key, KEY_PREFIX)
    ensures IsPubKey(fs, "test/realkey.pub", KEY_TAIL) == Ok((true, Some(key)))
  {
  }
}
