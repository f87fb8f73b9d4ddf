/** The application's constants and the list of tests that keep a file of
    `~/.ssh` out of the key picker. */
module Config {
  import opened Js

  datatype Settings = Settings(
    defaultConfigPath: string,
    algorithm: string,
    pbkdf2Iterations: nat,
    pbkdf2Digest: string,
    pbkdf2KeyLen: nat,
    defaultPort: int)

  /** The `CONFIG` record; its `sshPath` entry depends on the home directory and is SshPath below. */
  const CONFIG := Settings(
    defaultConfigPath := ".ssh-manager",
    algorithm := "aes-256-gcm",
    pbkdf2Iterations := 100000,
    pbkdf2Digest := "sha256",
    pbkdf2KeyLen := 32,
    defaultPort := 22)

  /** `path.join(os.homedir(), '.ssh')` for a home directory without a trailing separator. */
  function SshPath(home: string): string {
    home + "/.ssh"
  }

  /** One entry of `EXCLUDED_SSH_FILES`: a suffix test or an exact-name test. */
  datatype Exclusion = NameEndsWith(suffix: string) | NameIs(name: string)

  const EXCLUDED_SSH_FILES: seq<Exclusion> := [
    NameEndsWith(".pub"),
    NameEndsWith(".known_hosts"),
    NameEndsWith(".config"),
    NameIs("authorized_keys")
  ]

  /** `test(file)` for one entry of the list. */
  predicate Excludes(test: Exclusion, file: string) {
    match test
    case NameEndsWith(suffix) => EndsWith(file, suffix)
    case NameIs(name) => file == name
  }

  /** `tests.some((test) => test(file))` */
  predicate AnyExcludes(tests: seq<Exclusion>, file: string)
    decreases |tests|
  {
    |tests| > 0 && (Excludes(tests[0], file) || AnyExcludes(tests[1..], file))
  }

  /** `.some` finds a match exactly when some entry of the list matches. */
  lemma {:induction false} AnyExcludesFindsEntry(tests: seq<Exclusion>, file: string)
    ensures AnyExcludes(tests, file) <==> exists i :: 0 <= i < |tests| && Excludes(tests[i], file)
    decreases |tests|
  {
    if |tests| > 0 {
      AnyExcludesFindsEntry(tests[1..], file);
      if AnyExcludes(tests[1..], file) {
        var i :| 0 <= i < |tests[1..]| && Excludes(tests[1..][i], file);
        assert Excludes(tests[i + 1], file);
      }
      if exists i :: 0 <= i < |tests| && Excludes(tests[i], file) {
        var i :| 0 <= i < |tests| && Excludes(tests[i], file);
        if i > 0 {
          assert Excludes(tests[1..][i - 1], file);
        }
      }
    }
  }

  /** A directory entry is kept out of the key list. */
  predicate IsExcluded(file: string) {
    AnyExcludes(EXCLUDED_SSH_FILES, file)
  }

  /** What the four tests amount to, written out. */
  lemma ExcludedExactly(file: string)
    ensures IsExcluded(file) <==>
      EndsWith(file, ".pub") || EndsWith(file, ".known_hosts") || EndsWith(file, ".config") ||
      file == "authorized_keys"
  {
    AnyExcludesFindsEntry(EXCLUDED_SSH_FILES, file);
    if IsExcluded(file) {
      var i :| 0 <= i < 4 && Excludes(EXCLUDED_SSH_FILES[i], file);
      assert i == 0 || i == 1 || i == 2 || i == 3;
    }
    if EndsWith(file, ".pub") { assert Excludes(EXCLUDED_SSH_FILES[0], file); }
    if EndsWith(file, ".known_hosts") { assert Excludes(EXCLUDED_SSH_FILES[1], file); }
    if EndsWith(file, ".config") { assert Excludes(EXCLUDED_SSH_FILES[2], file); }
    if file == "authorized_keys" { assert Excludes(EXCLUDED_SSH_FILES[3], file); }
  }

  /** The suffix tests need the dot, and the `authorized_keys` test is an exact match:
      the bare names `known_hosts` and `config`, and `authorized_keys2`, stay in the list. */
  lemma ExclusionBoundaries()
    ensures !IsExcluded("known_hosts") && !IsExcluded("config") && !IsExcluded("authorized_keys2")
    ensures IsExcluded("id_ed25519.pub") && IsExcluded("authorized_keys")
    ensures !IsExcluded("id_ed25519")
  {
    ExcludedExactly("known_hosts");
    ExcludedExactly("config");
    ExcludedExactly("authorized_keys2");
    ExcludedExactly("id_ed25519.pub");
    ExcludedExactly("authorized_keys");
    ExcludedExactly("id_ed25519");
    assert "id_ed25519.pub"[10..] == ".pub";
    assert "authorized_keys2"[12..] != ".pub";
    assert "authorized_keys2"[9..] != ".config";
    assert "authorized_keys2"[4..] != ".known_hosts";
    assert "id_ed25519"[6..] != ".pub";
    assert "id_ed25519"[3..] != ".config";
    assert "known_hosts"[7..] != ".pub";
    assert "known_hosts"[4..] != ".config";
    assert "config"[2..] != ".pub";
  }
}
