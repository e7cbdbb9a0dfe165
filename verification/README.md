# ssh-copypasta reconciliation engine, in Dafny

ssh-copypasta keeps an SSH `authorized_keys` file equal to the public keys
found in a watched directory. An inotify handler receives create and delete
events. On a create it validates the new file: the name must end in `.pub`,
and the content must start with `ssh-rsa `. Then it writes an audit line and,
for a valid key or any delete, rebuilds the whole output file. A rebuild
truncates the file and appends `"\n" + key + "\n"` for every valid immediate
entry of the watch directory, in listing order.

The repository holds two versions of this logic, and both are modelled:

- `ssh_copypasta.dfy` (module `SshCopypasta`) models `ssh_copypasta.py`.
  Class `OnCreateDeleteHandler` holds the fixed configuration (`authKeys`,
  `watchDir`, `logFile`). Its state is the text of the authorized_keys file
  and the text of the log. Log lines are `[<timestamp>] <msg>`, and logging is
  off when no log file is configured.
- `ssh_copypasta_script.dfy` (module `SshCopypastaScript`) models the older
  `ssh-copypasta.py`. Its module globals become the fields of class `Script`.
  Its name test only requires a trailing `pub`. Its log lines have no
  timestamp and no backticks.
- `keyfiles.dfy` (module `KeyFiles`) holds what both share:
  - the filesystem snapshot `FileSystem`: directory listings in OS order, and
    the text of every readable path;
  - the validator `IsPubKey`, whose name pattern is a parameter;
  - the pure specification of a rebuild: `Scan`, `Joined` and `Rebuilt`;
  - the lemmas about rebuilds.

How the model treats I/O:

- The filesystem is a value passed to every operation. The engine only reads
  it, so a rebuild cannot change the watch directory.
- The timestamp is an opaque string parameter.
- Opening a path that is not a readable file raises in the source. The model
  returns `OsError(path)` in that case.
- A rebuild whose listing or read raises leaves the already truncated,
  partly written file behind. `Rebuilt` states exactly what is in it.
- The name regexes `^.*\.pub$` and `^.*pub$` are modelled exactly by
  `MatchesTail`. In Python's regex syntax `.` does not match a newline, and `$`
  also matches before a final newline. So a name ending in `.pub\n` passes
  the test. On newline-free names the test is a plain suffix check
  (`MatchesTailIsSuffix`).

Two behaviours of the code are worth stating outright:

- `open` is not guarded in `is_pub_key`, so an unreadable candidate raises.
  In `add_key` no line is logged (`CreateUnreadableRaises`), and a rebuild
  stops part-way.
- A create with a wrong suffix is logged as
  `Key file has invalid format: <path>`, like every other invalid candidate
  (`CreateWrongSuffixLogged`).

## Model

| member | source | states |
|---|---|---|
| KeyFiles.IsPubKey | ssh_copypasta.py:15-27 | A name failing `^.*<tail>$` gives (False, None). The read raises exactly when the name passes and the path is not readable. (True, content) is returned exactly when the text starts with `ssh-rsa `, and the content is the text as read. Otherwise the result is (False, None). The older version is the same with tail `pub` (ssh-copypasta.py:20-33). |
| KeyFiles.MatchesTailIsSuffix | ssh_copypasta.py:16-17 | On a name without newlines, the regex name test is exactly "ends with the suffix". |
| KeyFiles.SuffixRejectsWithoutReading | ssh_copypasta.py:16-18 | A name failing the suffix test gives (False, None) whatever the disk holds, so the file is never opened. |
| KeyFiles.AcceptedContentUnmodified | ssh_copypasta.py:20-27 | A readable file whose name passes the name test and whose text starts with `ssh-rsa ` gives (True, text), with the text unmodified. |
| KeyFiles.JoinedLines | ssh_copypasta.py:55 | If every collected key is one newline-terminated line, the output has 3 lines per key and is empty or ends in a newline. |
| KeyFiles.ScanAppend | ssh_copypasta.py:51-55 | Scanning a listing `a + b` gives the keys of `a` followed by the keys of `b`, and the outcome of `b`. If an open in `a` raises, the result is the scan of `a` alone: the scan stopped there. |
| KeyFiles.ScanKeysAreKeys | ssh_copypasta.py:51-55 | Every key written is the exact text of a listed entry that passes the validator, so it starts with `ssh-rsa `. |
| KeyFiles.ScanAllKeys | ssh_copypasta.py:51-55 | If every entry validates, nothing raises and the i-th key written is the text of the i-th listed entry. |
| KeyFiles.ScanNoKeys | ssh_copypasta.py:51-55 | If no entry validates and none raises, no key is written. |
| KeyFiles.RebuildLineCount | test.py:54-55 | With a listable watch directory whose N entries are all valid one-line keys, the rebuild succeeds and the file has 3·N lines. |
| KeyFiles.RebuildWithoutKeys | test.py:72-73 | With a listable watch directory with no entry that validates or raises (for example after every key was deleted), the rebuild succeeds and leaves the file empty. |
| KeyFiles.RebuildIgnoresOtherNames | ssh_copypasta.py:51-55 | Adding an entry that the validator rejects without raising anywhere in the listing leaves the rebuilt text and outcome unchanged. Examples are `notes.txt`, or `bad.pub` holding `not-a-key`. |
| KeyFiles.RebuildWithNewKey | ssh_copypasta.py:51-55 | When the rebuild of the entries listed before it succeeds, a valid key listed after them adds exactly its block `"\n" + key + "\n"` at the end of the file, and the rebuild still succeeds. |
| KeyFiles.RebuildDropsDeletedKey | ssh_copypasta.py:51-55 | When no entry listed before or after a valid key raises, both rebuilds succeed: with the key listed, its block sits between the blocks of the entries before and after it; with the key deleted, exactly that block is gone and the others stay in order. |
| SshCopypasta.OnCreateDeleteHandler.constructor | ssh_copypasta.py:31-34 | Stores the output path, the watch directory and the optional log file. |
| SshCopypasta.OnCreateDeleteHandler.Log | ssh_copypasta.py:36-41 | With no log file (None or empty), the log is unchanged. Otherwise exactly `[ts] msg\n` is appended after the old text. |
| SshCopypasta.OnCreateDeleteHandler.BuildAuthorizedKeysFile | ssh_copypasta.py:49-55 | The old output is discarded. The new output and outcome equal `Rebuilt` of the directory: the blocks of the valid entries in listing order and Ok; if an open raises, the blocks written before it and that raise; if the directory cannot be listed, an empty file and that raise. Since the result depends only on the disk, a second rebuild writes the same text. The loop invariant ties the text written so far to `Joined(Scan(prefix))`. |
| SshCopypasta.OnCreateDeleteHandler.AddKey | ssh_copypasta.py:57-65 | If validation raises, nothing changes. If the entry is invalid, the `invalid format` line is logged (appended when a log file is configured) and the output is untouched. If it is valid, the `New public key` line is logged first, then the file is rebuilt. |
| SshCopypasta.OnCreateDeleteHandler.RemoveKey | ssh_copypasta.py:67-70 | Without validating, the `Removed file` line is logged (appended when a log file is configured) and the file is rebuilt. |
| SshCopypasta.OnCreateDeleteHandler.ProcessInCreate | ssh_copypasta.py:43-44 | A create event has exactly the effect of `add_key(event.path, event.name)`. |
| SshCopypasta.OnCreateDeleteHandler.ProcessInDelete | ssh_copypasta.py:46-47 | A delete event has exactly the effect of `remove_key(event.path, event.name)`. |
| SshCopypasta.OnCreateDeleteHandler.Dispatch | ssh_copypasta.py:43-47 | Each event has exactly the effect `EventEffect` gives it: that of `add_key` for a create, and of `remove_key` for a delete. |
| SshCopypasta.LogAppendsOneLine | ssh_copypasta.py:36-41 | For a log that is empty or ends in a newline, and a timestamp and message without newlines: `log` keeps the earlier log as a prefix, adds one line when a log file is configured and none when it is not. |
| SshCopypasta.EventLogsOneLine | test.py:57-58 | With a log file configured, a newline-free timestamp, path and name, and a log that is empty or ends in a newline: every delete, and every create whose validation does not raise, appends exactly one log line and keeps the earlier ones. With no log file nothing is appended (`LogAppendsOneLine`). |
| SshCopypasta.CreateInvalidKeepsKeys | ssh_copypasta.py:57-62 | Creating a candidate the validator rejects without raising leaves authorized_keys unchanged and logs `Key file has invalid format: <path>/<name>` (appended when a log file is configured). |
| SshCopypasta.CreateWrongSuffixLogged | ssh_copypasta.py:57-62 | A newline-free path and name without the `.pub` suffix leave authorized_keys unchanged and are logged as invalid format (appended when a log file is configured), whatever the file holds. |
| SshCopypasta.CreateValidRebuilds | ssh_copypasta.py:64-65 | Creating a valid key logs ``New public key: `<name>` `` (appended when a log file is configured) and sets the output and outcome to the full rebuild. The log line is there even if the rebuild raises. |
| SshCopypasta.DeleteAlwaysRebuilds | ssh_copypasta.py:67-70 | Any delete logs ``Removed file: `<path>/<name>` `` (appended when a log file is configured) and sets the output and outcome to the rebuild, whatever the file was and whatever the output held. |
| SshCopypasta.CreateUnreadableRaises | ssh_copypasta.py:58-59 | A candidate that passes the `.pub` name test but cannot be opened raises with its path: no log line and no rebuild. |
| SshCopypasta.EmptyPubRejected | test.py:11 | An empty `test/empty.pub` gives (False, None), whatever else the disk holds. |
| SshCopypasta.GarbageNameRejected | test.py:12 | `garbage_pub.notpub` gives (False, None) whatever the disk holds. |
| SshCopypasta.RealKeyAccepted | test.py:13-14 | A `test/realkey.pub` whose text starts with `ssh-rsa ` gives (True, text) with its text unchanged, whatever else the disk holds. |
| SshCopypastaScript.Script.constructor | ssh-copypasta.py:78-80 | The script's globals `watch_dir`, `auth_keys` and `log_file` become fixed configuration. |
| SshCopypastaScript.Script.Log | ssh-copypasta.py:15-18 | Always appends exactly `msg + "\n"`: no timestamp and no disabled case. |
| SshCopypastaScript.Script.BuildAuthorizedKeysFile | ssh-copypasta.py:35-43 | The old output is discarded. The new output and outcome equal `Rebuilt` with the `pub` name test: the blocks of the valid entries in listing order and Ok; if an open raises, the blocks written before it and that raise; if the directory cannot be listed, an empty file and that raise. |
| SshCopypastaScript.Script.AddKey | ssh-copypasta.py:45-53 | Invalid: logs `Key file has invalid format: <path>/<name>` with no rebuild. Valid: logs `New public key: <name>, ...` and then rebuilds. |
| SshCopypastaScript.Script.RemoveKey | ssh-copypasta.py:55-58 | Always logs `Removed file: <path>/<name>, ...` and rebuilds, with no validation. |
| SshCopypastaScript.Script.ProcessInCreate | ssh-copypasta.py:61-62 | A create event has exactly the effect of `add_key`. |
| SshCopypastaScript.Script.ProcessInDelete | ssh-copypasta.py:64-65 | A delete event has exactly the effect of `remove_key`. |
| SshCopypastaScript.Script.Dispatch | ssh-copypasta.py:60-65 | Each event goes to the handler method for its kind. |
| SshCopypastaScript.NotpubPassesNameTest | ssh-copypasta.py:21-23 | A readable `x.notpub` passes the name test and is decided by its content alone, whatever else the disk holds. |
| SshCopypastaScript.NameTestWeakerThanCurrent | ssh-copypasta.py:21-23 | Every name accepted by `^.*\.pub$` is also accepted by `^.*pub$`. |
| SshCopypastaScript.LogAppendsOneLine | ssh-copypasta.py:15-18 | For a log that is empty or ends in a newline and a message without newlines, `log` keeps the earlier text as a prefix and adds exactly one line. |
| SshCopypastaScript.CreateInvalidKeepsKeys | ssh-copypasta.py:45-50 | A candidate the validator rejects without raising leaves the output unchanged and appends the `invalid format` line. |
| SshCopypastaScript.CreateValidRebuilds | ssh-copypasta.py:52-53 | A valid key is logged without backticks, then the output and outcome are set to the rebuild. |
| SshCopypastaScript.DeleteAlwaysRebuilds | ssh-copypasta.py:55-58 | Every delete appends the `Removed file` line and sets the output and outcome to the rebuild, whatever the entry was. |

## Left out

- The pyinotify subscription (`setup_watcher`, `WatchManager`, the notifiers, recursive `add_watch`, `start`/`stop`/`loop`). It is a foreign library. Events arrive one at a time at `Dispatch` as `Event(kind, path, name)`.
- What the notifier does after a handler raises. The model returns `OsError` and stops there.
- Argument parsing, the startup check of the watch directory, `sys.exit`, and the creation of the log and output files. This is command-line glue. It is also why `Script.logFile` is a plain path: the script fails at startup before any event when `-l` is not given.
- The wall clock. `datetime.now().isoformat()` is the `timestamp` parameter.
- Failures when writing: opening the output or log file for writing, a full disk, permissions. Writes are assumed to succeed. Only the directory listing and the reads of candidate files can raise.
- Exception types. Every raise is `OsError(path)`.
- Path normalisation. `files` is keyed by the literal strings the program builds, so `dir//name` and `dir/name` are different keys.
- Text-mode decoding (UTF-8, universal newlines). `files` holds the text as Python reads it.
- The output file or the log file lying inside the watch directory. The model keeps them apart from the snapshot.
- Changes to the directory while one event is handled. One snapshot serves the whole event.
- Buffered writes that have not reached the disk when the older script's rebuild raises. Its file handle is not closed on that path, and the model assumes the written prefix reaches the file.
