/**
 The part of ssh-copypasta that both versions of the program share: the view of
 the filesystem the engine reads, the two-stage key-file validator `is_pub_key`,
 the events the watcher delivers, and the specification of what a rebuild of
 authorized_keys writes.
 */
module KeyFiles {

  datatype Option<T> = None | Some(value: T)

  /** A value, or the OSError Python raises, carrying the path it could not open. */
  datatype Outcome<T> = Ok(value: T) | OsError(path: string)

  /**
   The filesystem as the program sees it while it handles one event:
   `dirs` maps every directory that can be listed to its entries, in the order
   the operating system lists them; `files` maps every path that opens for
   reading to its text as read in text mode. A path missing from `files`
   (absent, a directory, not readable) raises when it is opened. Paths are the
   strings the program builds; they are not normalised.
   */
  datatype FileSystem = FileSystem(dirs: map<string, seq<string>>, files: map<string, string>)

  /** The kinds of inotify event the handler subscribes to. */
  datatype EventKind = InCreate | InDelete

  /** One watcher event: its kind, the directory it happened in and the entry's name. */
  datatype Event = Event(kind: EventKind, path: string, name: string)

  /** What handling one event leaves in authorized_keys and in the log, and whether it raised. */
  datatype Effect = Effect(authorizedKeys: string, logText: string, outcome: Outcome<()>)

  /** The audit message for a created entry that fails validation; both versions write this text. */
  function InvalidFormatMessage(fileName: string): string {
    "Key file has invalid format: " + fileName
  }

  /** The content test `^ssh-rsa .*` succeeds exactly on texts with this prefix. */
  const KEY_PREFIX: string := "ssh-rsa "

  predicate StartsWith(s: string, prefix: string) {
    |prefix| <= |s| && s[..|prefix|] == prefix
  }

  predicate EndsWith(s: string, suffix: string) {
    |suffix| <= |s| && s[|s| - |suffix|..] == suffix
  }

  predicate NoNewline(s: string) {
    forall i :: 0 <= i < |s| ==> s[i] != '\n'
  }

  /**
   Whether Python's `re.match('^.*' + tail + '$', path)` succeeds, for a
   literal, newline-free `tail`: `.` does not match a newline, and `$` matches
   at the end of the text or just before a newline that ends it.
   */
  predicate MatchesTail(path: string, tail: string) {
    || (NoNewline(path) && EndsWith(path, tail))
    || (|path| > 0 && path[|path| - 1] == '\n'
        && NoNewline(path[..|path| - 1]) && EndsWith(path[..|path| - 1], tail))
  }

  /** On a name without newlines the pattern is a plain suffix test. */
  lemma MatchesTailIsSuffix(path: string, tail: string)
    requires NoNewline(path)
    ensures MatchesTail(path, tail) <==> EndsWith(path, tail)
  {
  }

  /**
   `is_pub_key`: the name must match `^.*<tail>$` (checked without opening the
   file); then the file is read and its text must start with `ssh-rsa `.
   Returns (True, text) or (False, None); opening a name that passed the first
   test but cannot be read raises.
   */
  function IsPubKey(fs: FileSystem, keyfileName: string, tail: string): (r: Outcome<(bool, Option<string>)>)
    ensures !MatchesTail(keyfileName, tail) ==> r == Ok((false, None))
    ensures r.OsError? <==> MatchesTail(keyfileName, tail) && keyfileName !in fs.files
    ensures r.OsError? ==> r.path == keyfileName
    ensures r.Ok? ==> (r.value.0 <==> r.value.1.Some?)
    ensures r.Ok? && r.value.0 <==>
      MatchesTail(keyfileName, tail) && keyfileName in fs.files && StartsWith(fs.files[keyfileName], KEY_PREFIX)
    ensures r.Ok? && r.value.0 ==> keyfileName in fs.files && r.value.1 == Some(fs.files[keyfileName])
  {
    if !MatchesTail(keyfileName, tail) then Ok((false, None))
    else if keyfileName !in fs.files then OsError(keyfileName)
    else
      var content := fs.files[keyfileName];
      if StartsWith(content, KEY_PREFIX) then Ok((true, Some(content))) else Ok((false, None))
  }

  /** The suffix test comes first: a name that fails it is rejected whatever the disk holds. */
  lemma SuffixRejectsWithoutReading(fs1: FileSystem, fs2: FileSystem, keyfileName: string, tail: string)
    requires !MatchesTail(keyfileName, tail)
    ensures IsPubKey(fs1, keyfileName, tail) == IsPubKey(fs2, keyfileName, tail) == Ok((false, None))
  {
  }

  /** An accepted key is returned exactly as read, and it starts with `ssh-rsa `. */
  lemma AcceptedContentUnmodified(fs: FileSystem, keyfileName: string, tail: string)
    requires keyfileName in fs.files && MatchesTail(keyfileName, tail)
    requires StartsWith(fs.files[keyfileName], KEY_PREFIX)
    ensures IsPubKey(fs, keyfileName, tail) == Ok((true, Some(fs.files[keyfileName])))
  {
  }

  /** Whether entry `name` of `dir` validates (its open does not raise and it is a key). */
  predicate IsKeyEntry(fs: FileSystem, dir: string, name: string, tail: string)
    ensures IsKeyEntry(fs, dir, name, tail) ==> dir + "/" + name in fs.files
  {
    var r := IsPubKey(fs, dir + "/" + name, tail);
    r.Ok? && r.value.0
  }

  /** The text a rebuild writes for one accepted key: a blank line, the key, a blank line. */
  function Block(key: string): string {
    "\n" + key + "\n"
  }

  /** The concatenation of the blocks of `keys`, in order. */
  function Joined(keys: seq<string>): string
  {
    if keys == [] then "" else Joined(keys[..|keys| - 1]) + Block(keys[|keys| - 1])
  }

  /** The keys a rebuild collects, and the path whose open raised, if one did. */
  datatype ScanResult = ScanResult(keys: seq<string>, failed: Option<string>)

  /**
   The loop of `build_authorized_keys_file` over the entries `names` of `dir`:
   the contents of the entries that validate, in listing order, up to the
   first entry whose open raises.
   */
  function Scan(fs: FileSystem, dir: string, names: seq<string>, tail: string): ScanResult
    decreases |names|
  {
    if names == [] then ScanResult([], None)
    else
      var before := Scan(fs, dir, names[..|names| - 1], tail);
      if before.failed.Some? then before
      else match IsPubKey(fs, dir + "/" + names[|names| - 1], tail)
        case OsError(p) => ScanResult(before.keys, Some(p))
        case Ok(v) => if v.0 then ScanResult(before.keys + [v.1.value], None) else before
  }

  /** The text of authorized_keys after a rebuild, and whether the rebuild raised. */
  datatype Rebuild = Rebuild(text: string, outcome: Outcome<()>)

  /**
   A rebuild truncates the output, lists `dir` and writes the block of every
   valid entry; if the listing or an open raises, what was written until then
   stays in the file.
   */
  function Rebuilt(fs: FileSystem, dir: string, tail: string): Rebuild
  {
    if dir !in fs.dirs then Rebuild("", OsError(dir))
    else
      var s := Scan(fs, dir, fs.dirs[dir], tail);
      Rebuild(Joined(s.keys), if s.failed.Some? then OsError(s.failed.value) else Ok(()))
  }

  // ---------------------------------------------------------------------------
  // Counting lines as Python's iteration over a text file does

  function NewlineCount(s: string): nat
  {
    if s == [] then 0 else NewlineCount(s[..|s| - 1]) + (if s[|s| - 1] == '\n' then 1 else 0)
  }

  /** The number of lines `for line in open(f)` yields for a file holding `s`. */
  function Lines(s: string): nat {
    NewlineCount(s) + (if s != [] && s[|s| - 1] != '\n' then 1 else 0)
  }

  /** A key file of one line: newline-terminated, with no other newline. */
  predicate SingleLine(key: string) {
    |key| > 0 && key[|key| - 1] == '\n' && NoNewline(key[..|key| - 1])
  }

  lemma {:induction false} NewlineCountAppend(a: string, b: string)
    ensures NewlineCount(a + b) == NewlineCount(a) + NewlineCount(b)
    decreases |b|
  {
    if b != [] {
      var b' := b[..|b| - 1];
      assert (a + b)[..|a + b| - 1] == a + b';
      NewlineCountAppend(a, b');
    } else {
      assert a + b == a;
    }
  }

  lemma {:induction false} NoNewlineCount(s: string)
    requires NoNewline(s)
    ensures NewlineCount(s) == 0
    decreases |s|
  {
    if s != [] {
      NoNewlineCount(s[..|s| - 1]);
    }
  }

  /** Appending a text that ends in a newline to one that is empty or ends in a newline adds its lines. */
  lemma AppendLines(a: string, b: string)
    requires a == [] || a[|a| - 1] == '\n'
    requires b == [] || b[|b| - 1] == '\n'
    ensures Lines(a + b) == Lines(a) + Lines(b)
  {
    NewlineCountAppend(a, b);
    if b == [] {
      assert a + b == a;
    }
  }

  // ---------------------------------------------------------------------------
  // Properties of the rebuild

  lemma {:induction false} JoinedAppend(x: seq<string>, y: seq<string>)
    ensures Joined(x + y) == Joined(x) + Joined(y)
    decreases |y|
  {
    if y == [] {
      assert x + y == x;
    } else {
      var y' := y[..|y| - 1];
      assert (x + y)[..|x + y| - 1] == x + y';
      JoinedAppend(x, y');
    }
  }

  /** Every key contributes three lines when it is a single newline-terminated line. */
  lemma {:induction false} JoinedLines(keys: seq<string>)
    requires forall i :: 0 <= i < |keys| ==> SingleLine(keys[i])
    ensures Lines(Joined(keys)) == 3 * |keys|
    ensures Joined(keys) == [] || Joined(keys)[|Joined(keys)| - 1] == '\n'
    decreases |keys|
  {
    if keys != [] {
      var init := keys[..|keys| - 1];
      var k := keys[|keys| - 1];
      JoinedLines(init);
      assert SingleLine(k);
      NoNewlineCount(k[..|k| - 1]);
      NewlineCountAppend(k[..|k| - 1], "\n");
      assert k == k[..|k| - 1] + "\n";
      NewlineCountAppend("\n", k);
      NewlineCountAppend("\n" + k, "\n");
      AppendLines(Joined(init), Block(k));
    }
  }

  /** Scanning a listing in two parts: the second part is scanned only if the first did not raise. */
  lemma {:induction false} ScanAppend(fs: FileSystem, dir: string, a: seq<string>, b: seq<string>, tail: string)
    ensures Scan(fs, dir, a + b, tail) ==
      if Scan(fs, dir, a, tail).failed.Some? then Scan(fs, dir, a, tail)
      else ScanResult(Scan(fs, dir, a, tail).keys + Scan(fs, dir, b, tail).keys, Scan(fs, dir, b, tail).failed)
    decreases |b|
  {
    if b == [] {
      assert a + b == a;
    } else {
      var b' := b[..|b| - 1];
      assert (a + b)[..|a + b| - 1] == a + b';
      assert (a + b)[|a + b| - 1] == b[|b| - 1];
      ScanAppend(fs, dir, a, b', tail);
      var sa, sb := Scan(fs, dir, a, tail), Scan(fs, dir, b', tail);
      if sa.failed.None? && sb.failed.None? {
        match IsPubKey(fs, dir + "/" + b[|b| - 1], tail)
        case OsError(p) =>
        case Ok(v) =>
          if v.0 {
            assert sa.keys + sb.keys + [v.1.value] == sa.keys + (sb.keys + [v.1.value]);
          }
      }
    }
  }

  /**
   Every key collected is the exact text of a listed entry that passes the
   validator, so it starts with `ssh-rsa `.
   */
  lemma {:induction false} ScanKeysAreKeys(fs: FileSystem, dir: string, names: seq<string>, tail: string)
    ensures forall k :: k in Scan(fs, dir, names, tail).keys ==>
      StartsWith(k, KEY_PREFIX) &&
      exists n :: n in names && IsKeyEntry(fs, dir, n, tail) && fs.files[dir + "/" + n] == k
    decreases |names|
  {
    if names != [] {
      var init := names[..|names| - 1];
      var last := names[|names| - 1];
      ScanKeysAreKeys(fs, dir, init, tail);
      forall k | k in Scan(fs, dir, names, tail).keys
        ensures StartsWith(k, KEY_PREFIX) &&
          exists n :: n in names && IsKeyEntry(fs, dir, n, tail) && fs.files[dir + "/" + n] == k
      {
        if k in Scan(fs, dir, init, tail).keys {
          var n :| n in init && IsKeyEntry(fs, dir, n, tail) && fs.files[dir + "/" + n] == k;
          assert n in names;
        } else {
          assert last in names;
        }
      }
    }
  }

  /** When every entry of the listing is a valid key, every one is collected, in listing order. */
  lemma {:induction false} ScanAllKeys(fs: FileSystem, dir: string, names: seq<string>, tail: string)
    requires forall i :: 0 <= i < |names| ==> IsKeyEntry(fs, dir, names[i], tail)
    ensures Scan(fs, dir, names, tail).failed == None
    ensures |Scan(fs, dir, names, tail).keys| == |names|
    ensures forall i :: 0 <= i < |names| ==>
      IsKeyEntry(fs, dir, names[i], tail) && Scan(fs, dir, names, tail).keys[i] == fs.files[dir + "/" + names[i]]
    decreases |names|
  {
    if names != [] {
      var init := names[..|names| - 1];
      assert forall i :: 0 <= i < |init| ==> init[i] == names[i];
      ScanAllKeys(fs, dir, init, tail);
      assert IsKeyEntry(fs, dir, names[|names| - 1], tail);
    }
  }

  /** When no entry of the listing is a key and none raises, nothing is collected. */
  lemma {:induction false} ScanNoKeys(fs: FileSystem, dir: string, names: seq<string>, tail: string)
    requires forall i :: 0 <= i < |names| ==> IsPubKey(fs, dir + "/" + names[i], tail) == Ok((false, None))
    ensures Scan(fs, dir, names, tail) == ScanResult([], None)
    decreases |names|
  {
    if names != [] {
      var init := names[..|names| - 1];
      assert forall i :: 0 <= i < |init| ==> init[i] == names[i];
      ScanNoKeys(fs, dir, init, tail);
      assert IsPubKey(fs, dir + "/" + names[|names| - 1], tail) == Ok((false, None));
    }
  }

  /**
   With N entries in the watch directory, each a valid one-line key, the
   rebuilt file has 3·N lines; with none, it is empty.
   */
  lemma RebuildLineCount(fs: FileSystem, dir: string, tail: string)
    requires dir in fs.dirs
    requires forall i :: 0 <= i < |fs.dirs[dir]| ==>
      IsKeyEntry(fs, dir, fs.dirs[dir][i], tail) && SingleLine(fs.files[dir + "/" + fs.dirs[dir][i]])
    ensures Rebuilt(fs, dir, tail).outcome == Ok(())
    ensures Lines(Rebuilt(fs, dir, tail).text) == 3 * |fs.dirs[dir]|
  {
    var names := fs.dirs[dir];
    ScanAllKeys(fs, dir, names, tail);
    JoinedLines(Scan(fs, dir, names, tail).keys);
  }

  /** A listing without keys (for instance after every key was deleted) gives an empty file. */
  lemma RebuildWithoutKeys(fs: FileSystem, dir: string, tail: string)
    requires dir in fs.dirs
    requires forall i :: 0 <= i < |fs.dirs[dir]| ==> IsPubKey(fs, dir + "/" + fs.dirs[dir][i], tail) == Ok((false, None))
    ensures Rebuilt(fs, dir, tail) == Rebuild("", Ok(()))
  {
    ScanNoKeys(fs, dir, fs.dirs[dir], tail);
  }

  /**
   An entry the validator rejects without raising (`notes.txt`, or `bad.pub`
   holding `not-a-key`) has no effect on the rebuild, wherever it is listed.
   */
  lemma RebuildIgnoresOtherNames(fs: FileSystem, dir: string, a: seq<string>, x: string, b: seq<string>, tail: string)
    requires IsPubKey(fs, dir + "/" + x, tail) == Ok((false, None))
    ensures Rebuilt(fs.(dirs := fs.dirs[dir := a + [x] + b]), dir, tail) == Rebuilt(fs.(dirs := fs.dirs[dir := a + b]), dir, tail)
  {
    var fs1 := fs.(dirs := fs.dirs[dir := a + [x] + b]);
    var fs2 := fs.(dirs := fs.dirs[dir := a + b]);
    assert fs1.files == fs2.files == fs.files;
    ScanAppend(fs, dir, a + [x], b, tail);
    ScanAppend(fs, dir, a, [x], tail);
    ScanAppend(fs, dir, a, b, tail);
    assert Scan(fs, dir, [x], tail) == ScanResult([], None) by {
      assert [x][..0] == [];
    }
    assert Scan(fs, dir, a + [x], tail) == Scan(fs, dir, a, tail);
    ScanSameFiles(fs1, fs, dir, a + [x] + b, tail);
    ScanSameFiles(fs2, fs, dir, a + b, tail);
  }

  /** A new valid key listed after the others adds its block at the end of the file. */
  lemma RebuildWithNewKey(fs: FileSystem, dir: string, a: seq<string>, x: string, tail: string)
    requires IsKeyEntry(fs, dir, x, tail)
    requires Rebuilt(fs.(dirs := fs.dirs[dir := a]), dir, tail).outcome == Ok(())
    ensures Rebuilt(fs.(dirs := fs.dirs[dir := a + [x]]), dir, tail) ==
      Rebuild(Rebuilt(fs.(dirs := fs.dirs[dir := a]), dir, tail).text + Block(fs.files[dir + "/" + x]), Ok(()))
  {
    var fs1 := fs.(dirs := fs.dirs[dir := a + [x]]);
    var fs2 := fs.(dirs := fs.dirs[dir := a]);
    ScanSameFiles(fs1, fs, dir, a + [x], tail);
    ScanSameFiles(fs2, fs, dir, a, tail);
    assert (a + [x])[..|a + [x]| - 1] == a;
  }

  /**
   Deleting a valid key from anywhere in the listing removes exactly its block
   from the rebuilt file, and the blocks before and after it stay in order.
   */
  lemma RebuildDropsDeletedKey(fs: FileSystem, dir: string, a: seq<string>, x: string, b: seq<string>, tail: string)
    requires IsKeyEntry(fs, dir, x, tail)
    requires Scan(fs, dir, a, tail).failed == None && Scan(fs, dir, b, tail).failed == None
    ensures Rebuilt(fs.(dirs := fs.dirs[dir := a + [x] + b]), dir, tail) ==
      Rebuild(Joined(Scan(fs, dir, a, tail).keys) + Block(fs.files[dir + "/" + x]) + Joined(Scan(fs, dir, b, tail).keys), Ok(()))
    ensures Rebuilt(fs.(dirs := fs.dirs[dir := a + b]), dir, tail) ==
      Rebuild(Joined(Scan(fs, dir, a, tail).keys) + Joined(Scan(fs, dir, b, tail).keys), Ok(()))
  {
    var fs1 := fs.(dirs := fs.dirs[dir := a + [x] + b]);
    var fs2 := fs.(dirs := fs.dirs[dir := a + b]);
    ScanSameFiles(fs1, fs, dir, a + [x] + b, tail);
    ScanSameFiles(fs2, fs, dir, a + b, tail);
    var ka, kb := Scan(fs, dir, a, tail).keys, Scan(fs, dir, b, tail).keys;
    var c := fs.files[dir + "/" + x];
    assert Scan(fs, dir, a + [x], tail) == ScanResult(ka + [c], None) by {
      assert (a + [x])[..|a + [x]| - 1] == a;
    }
    ScanAppend(fs, dir, a + [x], b, tail);
    ScanAppend(fs, dir, a, b, tail);
    JoinedAppend(ka + [c], kb);
    JoinedAppend(ka, kb);
    assert Joined(ka + [c]) == Joined(ka) + Block(c) by {
      assert (ka + [c])[..|ka + [c]| - 1] == ka;
    }
  }

  /** The scan reads only file contents, never the listings. */
  lemma ScanSameFiles(fs1: FileSystem, fs2: FileSystem, dir: string, names: seq<string>, tail: string)
    requires fs1.files == fs2.files
    ensures Scan(fs1, dir, names, tail) == Scan(fs2, dir, names, tail)
  {
  }
}
