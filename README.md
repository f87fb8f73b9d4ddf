# myssh-cli session and store, in Dafny

A model of the core of `myssh-cli`, a command-line manager of SSH connection profiles.
Profiles are grouped into named workspaces. The whole document is kept in one file
(`~/.ssh-manager`), encrypted under a master password.

The model covers:

- **`Manager`** (`manager.dfy`) is the session object. It caches the master password, the
  decrypted document and the active workspace across menu actions. It also holds
  `initialize`, the adding, listing and lookup of connections, `switchWorkspace` and `reset`.
- **`WorkspaceUtils`** (`workspace_utils.dfy`) loads the document and maps the load errors.
  It also migrates the legacy single-list format, creates and selects workspaces, and saves.
- **`SshUtils`** (`ssh_utils.dfy`) filters `~/.ssh` down to the key files offered to the user.
  It also builds the `ssh` command line for a connection.
- **`Config`** (`config.dfy`) holds the configuration constants and the four exclusion tests.
- **`Document`** and **`Storage`** (`document.dfy`, `storage.dfy`) hold the shared entities:
  - the document as a value (`Doc`) and as the live object the code mutates (`class Data`);
  - the file on disk (`class ConfigFile`) and what it can hold.
- **`Js`** (`js.dfy`) holds the few JavaScript semantics the code relies on:
  - truthiness, `endsWith`, `includes`;
  - `Number.prototype.toString`, with its decimal inverse;
  - a thrown error's `code` and `message`;
  - the `TypeError` raised by reading a property of `null` or `undefined`.

Interactive prompts are parameters: the model receives the answer the user gives.

- When a validate callback refuses an answer, the operation ends with `Invalid(message)` and
  changes nothing. The real prompt shows that message and asks again; the model stops there.
- A list answer that was not among the offered choices gives `NotOffered`.
- Clock readings (`new Date().toISOString()`) are parameters too.

Encryption is abstract. A sealed envelope records the document and the password it was sealed
under. Opening it with that password yields the document. Opening it with any other password
fails with Node's AES-GCM message "Unsupported state or unable to authenticate data".

Most stateful operations are methods proved against a pure function of the old state:
`LoadResult`/`LoadedFile` for loading, and `CreateStep`, `SelectStep`, `Activate`,
`PutConnection` or `RecordName` elsewhere. The properties of those functions are proved as
lemmas. Three methods are specified differently:

- `Reset` states its new state directly.
- `SwitchWorkspace` states only the session it ends in.
- `InitializeAsWritten` states only where it departs from `Initialize`.

`Initialize` keeps the password and document only after a successful load. That order is the
correction described under Findings; `InitializeAsWritten` keeps the source's order.
`SwitchWorkspace` and `FirstRun` build on `Initialize`. `FirstRun` chains the methods into one
session:

1. create a workspace;
2. add a connection;
3. reload the file with the same password;
4. reject another password.

## Model

| member | source | states |
|---|---|---|
| Js.NumberToStringRoundTrip | src/lib/ssh-utils.js:27-29 | the decimal text `port.toString()` puts on the command line reads back as exactly that port, negative ports included |
| Config.AnyExcludesFindsEntry | src/lib/ssh-utils.js:13 | `EXCLUDED_SSH_FILES.some(test => test(file))` holds exactly when some entry of the list excludes the file |
| Config.ExcludedExactly | src/config.js:14-19 | a file name is excluded if and only if it ends with `.pub`, `.known_hosts` or `.config`, or is exactly `authorized_keys` |
| Config.ExclusionBoundaries | src/config.js:14-19 | consequences of suffix matching: plain `known_hosts`, `config` and `authorized_keys2` are kept; `id_ed25519.pub` and `authorized_keys` are excluded; `id_ed25519` is kept |
| Storage.Seal | src/lib/encryption.js:25-57 | a sealed document opens with its own password to the same document, and fails with the authentication error under every other password |
| WorkspaceUtils.SaveData | src/lib/workspace-utils.js:71-74 | the file afterwards holds the whole current document, sealed under the given password |
| WorkspaceUtils.LoadData | src/lib/workspace-utils.js:7-40 | a fresh document object equal to `LoadResult` of the file, or exactly `LoadResult`'s error; the file afterwards is `LoadedFile` (rewritten only by a migration) |
| WorkspaceUtils.MigrateShape | src/lib/workspace-utils.js:14-22 | migration changes a document exactly when it is legacy (top-level `connections`, no `workspaces`); it moves the old connections into one `default` workspace stamped with the clock, selects it and drops `connections` |
| WorkspaceUtils.MigrateIdempotent | src/lib/workspace-utils.js:14 | a migrated document is not legacy, so loading it again at any later time does not migrate it again |
| WorkspaceUtils.LoadMissingFile | src/lib/workspace-utils.js:28-34 | with no file, loading yields `{ workspaces: {}, lastWorkspace: null }` and does not create the file |
| WorkspaceUtils.LoadWrongPassword | src/lib/workspace-utils.js:35-37 | a file sealed under one password, loaded with any other, fails with "Incorrect master password" and is left unchanged |
| WorkspaceUtils.LoadOtherErrorRethrown | src/lib/workspace-utils.js:38 | a read or parse error that is neither `ENOENT` nor about authentication reaches the caller unchanged, and the file is untouched |
| WorkspaceUtils.SaveLoadRoundTrip | src/lib/workspace-utils.js:7-74 | saving and then loading with the same password gives back the saved document (migrated if it was legacy); loading once more changes neither the result nor the file |
| WorkspaceUtils.CreateNewWorkspace | src/lib/workspace-utils.js:42-69 | the answer and the new document are those of `CreateStep`; the file is saved exactly when a workspace was created |
| WorkspaceUtils.CreateAccepts | src/lib/workspace-utils.js:48-52 | a name is accepted if and only if it is non-empty, a `workspaces` object exists and does not hold it; the empty name is refused with "Name cannot be empty"; a refusal leaves the document as it was |
| WorkspaceUtils.CreateAdds | src/lib/workspace-utils.js:56-65 | a created workspace is empty, stamped with the clock and selected; the name set grows by exactly that name; other workspaces and `connections` are unchanged |
| WorkspaceUtils.SelectWorkspace | src/lib/workspace-utils.js:76-105 | the answer and the new document are those of `SelectStep`; the file is saved exactly when a workspace was selected or created |
| WorkspaceUtils.SelectExisting | src/lib/workspace-utils.js:97-104 | choosing a listed workspace selects it and changes nothing else in the document |
| WorkspaceUtils.SelectWithoutWorkspaces | src/lib/workspace-utils.js:77-82 | when there is no workspace to list, selecting is creating |
| WorkspaceUtils.SelectResolves | src/lib/workspace-utils.js:76-105 | after a successful selection or creation, `lastWorkspace` is the answer and names an existing workspace, and no workspace was lost; after a refusal the document is unchanged |
| SshUtils.KeptFiles | src/lib/ssh-utils.js:12-13 | every kept entry is an entry of the listing that no exclusion test matches, and no more entries are kept than listed |
| SshUtils.KeptFilesAppend | src/lib/ssh-utils.js:12-13 | filtering distributes over concatenation, so the kept entries keep the listing's order |
| SshUtils.KeptFilesCounts | src/lib/ssh-utils.js:12-13 | a file that no test excludes is kept as many times as the listing holds it, and an excluded file is never kept |
| SshUtils.AvailableSshKeys | src/lib/ssh-utils.js:9-22 | an unreadable directory gives no keys; otherwise there is one choice per kept file, in order, named by the file and valued by its path `<home>/.ssh/<file>` (the `sshPath` of src/config.js:10) |
| SshUtils.BuildSshArgs | src/lib/ssh-utils.js:24-35 | the arguments start with `-t` and end with `user@host`; `-p <port>` appears exactly when the port is not 22; `-i <key>` appears exactly when a key path is set |
| SshUtils.TargetIsNoFlag | src/lib/ssh-utils.js:35 | the `user@host` destination can never be read as the `-p` or `-i` flag |
| SshUtils.SshArgsRoundTrip | src/lib/ssh-utils.js:24-35 | reading the command line back recovers exactly the connection's port, key path and destination |
| Js.Utf16Length | src/manager.js:61-62 | JavaScript's `length` counts UTF-16 code units: between the number of characters and twice it, and equal to the number of characters exactly when none lies above U+FFFF |
| Js.Utf16LengthAppend | src/manager.js:61-62 | the code-unit length of a concatenation is the sum of the parts' lengths |
| Manager.ValidateMasterPassword | src/manager.js:61-62 | a password is accepted if and only if its JavaScript length (UTF-16 code units) is at least 8; any password of 8 or more characters is accepted, and one of fewer than 4 is refused with "Password must be at least 8 characters" |
| Manager.PasswordLengthInCodeUnits | src/manager.js:61-62 | the 7-character password `abcdef😀` is accepted, because its last character counts as two code units |
| Manager.ValidateConnectionAnswers | src/manager.js:94-106 | connection answers are accepted if and only if name, host and username are all non-empty |
| Manager.ResumeKeepsDocument | src/manager.js:29-43 | a `lastWorkspace` that names an existing workspace is resumed with no prompt and no change to the document |
| Manager.ActivateResolves | src/manager.js:29-43 | whichever path initialization takes, success ends on an existing workspace that is also `lastWorkspace`, and failure leaves the document unchanged |
| Manager.PutConnectionEffect | src/manager.js:128-136 | storing a connection adds or overwrites that single entry of the active workspace and changes no other connection, workspace or field |
| Manager.ChosenConnection | src/manager.js:199-234 | with a name, a connection is found exactly when the workspace holds that name; without one, nothing is found exactly when the workspace has no connections |
| Manager.Manager.constructor | src/manager.js:13-18 | a new session has no workspace, no password and no document |
| Manager.Manager.ActivateWorkspace | src/manager.js:29-45 | resumes `lastWorkspace` or runs the selection, as `Activate` describes; on success the session is ready on `lastWorkspace` |
| Manager.Manager.Initialize | src/manager.js:20-46 | the corrected order (see Findings); with no cached password: a refused password changes nothing; a failed load caches nothing and passes the error on; a successful load caches the password and the fresh document and activates. With a cached password it only activates. On success the session is ready |
| Manager.Manager.InitializeAsWritten | src/manager.js:20-46 | the source's order: the password is cached even when the load throws, and a session left with a password but no document fails with "Cannot read properties of null (reading 'lastWorkspace')" |
| Manager.Manager.SwitchWorkspace | src/manager.js:69-78 | on success the session is ready on the chosen workspace, `lastWorkspace` is that workspace, and the file holds the current document |
| Manager.Manager.AddConnection | src/manager.js:89-142 | refused answers change nothing; accepted ones store the new record under its name in the active workspace (as `PutConnection` states) and save the document |
| Manager.Manager.ListConnections | src/manager.js:157-158 | reports "no connections" exactly when the active workspace is missing or empty; otherwise it lists exactly that workspace's connections |
| Manager.Manager.Connect | src/manager.js:199-236 | the chosen connection, with its `name` written into the stored record and nowhere else, and the `ssh` arguments for it; nothing when no connection is chosen; the document is not saved |
| Manager.Manager.Reset | src/manager.js:239-252 | a deleted file clears the whole session; a missing file is not an error and clears nothing; any other unlink error is passed on and changes nothing |
| Manager.TruncatedFileIsPlain | src/lib/workspace-utils.js:27-38 | the error `JSON.parse` throws on an empty store file is neither `ENOENT` nor about authentication, so `loadData` passes it on unchanged |
| Manager.StrandedSession | src/manager.js:21-27 | for a store file whose load fails with such an error, the first `initialize` fails with that error, and the second fails reading `lastWorkspace` of null instead of loading again |
| Manager.RetriedSession | src/manager.js:21-27 | with the password cached only after a successful load, both attempts report the file's own error |
| Manager.FirstRun | src/manager.js:20-142 | for any two different passwords of 8 or more characters, from no file: a created workspace and one added connection survive saving and reloading; the reloaded session resumes that workspace; another password is refused as incorrect |

## Left out

- Key derivation (PBKDF2) and AES-256-GCM (`src/lib/encryption.js`) are abstract.
  - The model assumes decryption fails under every password but the right one. It does not model the derived key, the salt, the IV or the ciphertext bytes.
  - Two saves of the same document therefore give equal file states, where the real files differ by salt and IV.
- File I/O is reduced to the state of one file.
  - Writing never fails. A write error inside the migration's save, which the source would route through `loadData`'s `catch`, is not modelled.
  - The unlink outcome of `reset` is a parameter.
  - The `fs.access` probe of `getMasterPassword` only chooses the prompt's wording, and is not modelled.
- JSON is reduced to the three top-level fields of the document.
  - Unknown keys and values of the wrong type are not modelled.
  - Prototype keys are not modelled either: a workspace or connection called `toString`, found through `obj[name]`, is treated as absent.
- Prompts are answered once. The re-asking loop of inquirer after a refused answer is not modelled.
- The port prompt's `parseInt` is not modelled (`NaN` included): the port arrives as an integer.
- The key prompt's choices are not checked: the key path arrives as given, with `""` standing for "no key".
- The key prompt's validate (its "No SSH keys found" message) is not modelled, because the key path is taken as given.
- `createNewWorkspace`'s validate reads `data.workspaces[input]`. When `workspaces` is absent, that read throws, which the model returns as `Thrown`.
  - As a consequence, lines 56-58 of `src/lib/workspace-utils.js` never change anything. The model keeps them in `CreateNewWorkspace`.
  - How inquirer reports an exception thrown by a validate callback is not modelled.
- The entry code of `addConnection`, `listConnections` and `connect` (`src/manager.js:81-85`, `151-155`, `193-197`) is not repeated inside those methods. That code is the `initialize` call plus the conditional `switchWorkspace`.
  - Those methods require `Ready()`, the state a successful `Initialize` or `SwitchWorkspace` leaves.
  - The extra `switchWorkspace` that a workspace named `""` (falsy) would trigger is not modelled.
- `getAvailableSSHKeys` reads the key listing once before the prompts in `addConnection`. The model treats that listing as a separate input of `AvailableSshKeys`.
- `path.join` is modelled as joining with `/`, without normalisation.
- `Js.NumberToString` prints every integer in full decimal. JavaScript numbers hold integers exactly only up to 2^53, and `toString` prints integral values of magnitude 1e21 or more in exponent form (`1e+21`). The model of the `-p` argument therefore holds only for ports below 1e21 in magnitude; a port typed beyond that is not modelled.
- Other string lengths and comparisons (`=== 0`, `> 0`, `endsWith`, `includes`) are on characters rather than UTF-16 code units. For these tests the two agree, because emptiness is the same in both and every suffix and substring tested is ASCII.
- The following are not part of this model:
  - console output and colours;
  - the main menu loop (`src/commands.js`) and the command-line entry (`src/index.js`);
  - the prompt wrapper (`src/prompt-safe.js`);
  - `spawn` and the ssh process's events;
  - `process.exit`.
- `Manager.Manager.SwitchWorkspace` states the session it ends in but not the exact document. That document is `SelectStep` applied after `Initialize`, and the two steps' own contracts state it.
- `Manager.Manager.InitializeAsWritten` states only the branches that differ from `Initialize`: the password cached before the load, and the null-document failure. Its successful path is the same as `Initialize`'s.
- Where the design intent and the code differ, the model follows the code, except in `Manager.Manager.Initialize`:
  - Saving overwrites the file in place; there is no atomic write.
  - Adding a connection under an existing name overwrites it; there is no duplicate check.
  - A load error that is neither a missing file nor an authentication failure is passed on as thrown, not reported as a distinct corrupt-store error.
  - A failed load leaves the password cached. `Manager.Manager.InitializeAsWritten` keeps this order. `Manager.Manager.Initialize`, on which `SwitchWorkspace` and `FirstRun` build, uses the corrected order (see Findings).

## Findings

| source | as written | input that shows it | evidently intended | confidence | as-written member | corrected member |
|---|---|---|---|---|---|---|
| src/manager.js:21-27 | `initialize` stores the master password before `loadData` runs, so a load that throws leaves a cached password and a null document; the menu loop reports the error and keeps going, and every later `initialize` skips loading and throws reading `lastWorkspace` of null | an empty or truncated store file, with any password of 8 or more characters: the first attempt reports the `JSON.parse` error (for an empty file, "Unexpected end of JSON input"; the wording depends on where the file is cut), and every later one reports "Cannot read properties of null (reading 'lastWorkspace')" | cache the password and the document together, only once the load succeeds, so the next attempt prompts and loads again | medium, not executed | Manager.StrandedSession | Manager.RetriedSession |
