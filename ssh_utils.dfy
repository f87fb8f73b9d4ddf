/** The key picker's list and the `ssh` command line (`SSHUtils` in src/lib/ssh-utils.js). */
module SshUtils {
  import opened Js
  import opened Config
  import opened Document

  // ---------------------------------------------------------------- key files

  /** A choice of the key picker: the file name shown and the path it stands for. */
  datatype KeyChoice = KeyChoice(name: string, value: string)

  /** `path.join(dir, entry)` for a directory without a trailing separator and a plain entry name. */
  function PathJoin(dir: string, entry: string): string {
    dir + "/" + entry
  }

  /** `files.filter((file) => !EXCLUDED_SSH_FILES.some((test) => test(file)))` */
  function KeptFiles(files: seq<string>): (kept: seq<string>)
    ensures |kept| <= |files|
    ensures forall f :: f in kept ==> f in files && !IsExcluded(f)
    decreases |files|
  {
    if files == [] then []
    else if IsExcluded(files[0]) then KeptFiles(files[1..])
    else [files[0]] + KeptFiles(files[1..])
  }

  /** `getAvailableSSHKeys` for the home directory `home`, given what `readdir` of its
      `.ssh` directory returned. */
  function AvailableSshKeys(listing: Result<seq<string>, JsError>, home: string): (keys: seq<KeyChoice>)
    ensures listing.Failure? ==> keys == []
    ensures listing.Success? ==> |keys| == |KeptFiles(listing.value)|
    ensures listing.Success? ==> forall i :: 0 <= i < |keys| ==>
      keys[i] == KeyChoice(KeptFiles(listing.value)[i], home + "/.ssh/" + KeptFiles(listing.value)[i])
  {
    match listing
    case Failure(_) => []
    case Success(files) =>
      var kept := KeptFiles(files);
      seq(|kept|, i requires 0 <= i < |kept| => KeyChoice(kept[i], PathJoin(SshPath(home), kept[i])))
  }

  /** Filtering a listing piece by piece is filtering the whole: together with the one-entry
      case this fixes the result, in the listing's own order. */
  lemma {:induction false} KeptFilesAppend(a: seq<string>, b: seq<string>)
    ensures KeptFiles(a + b) == KeptFiles(a) + KeptFiles(b)
    decreases |a|
  {
    if a == [] {
      assert a + b == b;
    } else {
      assert (a + b)[0] == a[0];
      assert (a + b)[1..] == a[1..] + b;
      KeptFilesAppend(a[1..], b);
    }
  }

  lemma KeptFilesSingle(f: string)
    ensures KeptFiles([f]) == if IsExcluded(f) then [] else [f]
  {
    assert [f][1..] == [];
  }

  /** Every entry that no test excludes is kept, as many times as the listing holds it. */
  lemma {:induction false} KeptFilesCounts(files: seq<string>, f: string)
    ensures multiset(KeptFiles(files))[f] == if IsExcluded(f) then 0 else multiset(files)[f]
    decreases |files|
  {
    if files != [] {
      KeptFilesCounts(files[1..], f);
      assert files == [files[0]] + files[1..];
    }
  }

  // ---------------------------------------------------------------- the ssh command line

  /** `${connection.username}@${connection.host}` */
  function SshTarget(c: Connection): string {
    c.username + "@" + c.host
  }

  /** The arguments handed to `spawn('ssh', …)`. */
  function SshArgs(c: Connection): seq<string> {
    ["-t"]
    + (if c.port != CONFIG.defaultPort then ["-p", NumberToString(c.port)] else [])
    + (if c.keyPath != "" then ["-i", c.keyPath] else [])
    + [SshTarget(c)]
  }

  /** The argument building of `connectToServer`, one `push` at a time. */
  method BuildSshArgs(c: Connection) returns (args: seq<string>)
    ensures args == SshArgs(c)
    ensures |args| == 2 + (if c.port != CONFIG.defaultPort then 2 else 0) + (if c.keyPath != "" then 2 else 0)
    ensures args[0] == "-t" && args[|args| - 1] == SshTarget(c)
    ensures c.port != CONFIG.defaultPort <==> args[1] == "-p"
    ensures c.port != CONFIG.defaultPort ==> args[2] == NumberToString(c.port)
    ensures c.keyPath != "" <==> |args| >= 4 && args[|args| - 3] == "-i"
    ensures c.keyPath != "" ==> args[|args| - 2] == c.keyPath
  {
    args := ["-t"];
    if c.port != CONFIG.defaultPort {
      args := args + ["-p", NumberToString(c.port)];
    }
    if c.keyPath != "" {
      args := args + ["-i", c.keyPath];
    }
    args := args + [SshTarget(c)];
    TargetIsNoFlag(c);
  }

  /** The destination always holds an `@`, so it is never mistaken for a flag. */
  lemma TargetIsNoFlag(c: Connection)
    ensures SshTarget(c) != "-p" && SshTarget(c) != "-i"
  {
    var t := SshTarget(c);
    assert t[|c.username|] == '@';
    assert forall k :: 0 <= k < 2 ==> "-p"[k] != '@' && "-i"[k] != '@';
  }

  /** What an `ssh -t` command line asks for: the port, the identity file and the destination. */
  datatype SshRequest = SshRequest(port: int, keyPath: string, target: string)

  /** Reads an argument list of the shape `-t [-p port] [-i key] target` back. */
  function ParseSshArgs(args: seq<string>): Option<SshRequest> {
    if |args| < 2 || args[0] != "-t" then None
    else
      var options := args[1..|args| - 1];
      var target := args[|args| - 1];
      if options == [] then Some(SshRequest(CONFIG.defaultPort, "", target))
      else if |options| == 2 && options[0] == "-i" then Some(SshRequest(CONFIG.defaultPort, options[1], target))
      else if |options| == 2 && options[0] == "-p" then
        match DecimalValue(options[1])
        case None => None
        case Some(p) => Some(SshRequest(p, "", target))
      else if |options| == 4 && options[0] == "-p" && options[2] == "-i" then
        match DecimalValue(options[1])
        case None => None
        case Some(p) => Some(SshRequest(p, options[3], target))
      else None
  }

  /** The command line carries the connection's port, key and destination and nothing else:
      reading it back recovers them exactly (port 22 and "no key" being the defaults). */
  lemma SshArgsRoundTrip(c: Connection)
    ensures ParseSshArgs(SshArgs(c)) == Some(SshRequest(c.port, c.keyPath, SshTarget(c)))
  {
    var args := SshArgs(c);
    NumberToStringRoundTrip(c.port);
    if c.port != CONFIG.defaultPort && c.keyPath != "" {
      assert args[1..|args| - 1] == ["-p", NumberToString(c.port), "-i", c.keyPath];
    } else if c.port != CONFIG.defaultPort {
      assert args[1..|args| - 1] == ["-p", NumberToString(c.port)];
    } else if c.keyPath != "" {
      assert args[1..|args| - 1] == ["-i", c.keyPath];
    } else {
      assert args[1..|args| - 1] == [];
    }
  }
}
