/** The session object of src/manager.js: it caches the master password, the loaded
    document and the active workspace across menu actions. */
module Manager {
  import opened Js
  import opened Document
  import opened Storage
  import opened WorkspaceUtils
  import opened SshUtils

  // ---------------------------------------------------------------- prompt answers

  /** The answers of the add-connection prompts; the port as `parseInt` returned it. */
  datatype ConnectionAnswers = ConnectionAnswers(
    name: string,
    host: string,
    username: string,
    keyPath: string,
    port: int)

  /** The validate callback of the master-password prompt: the message, or None when accepted. */
  function ValidateMasterPassword(input: string): (message: Option<string>)
    ensures message.None? <==> Utf16Length(input) >= 8
    ensures |input| >= 8 ==> message.None?
    ensures |input| < 4 ==> message == Some("Password must be at least 8 characters")
  {
    if Utf16Length(input) >= 8 then None else Some("Password must be at least 8 characters")
  }

  /** The length counted is JavaScript's: seven characters, one of them outside the Basic
      Multilingual Plane, make a password long enough. */
  lemma PasswordLengthInCodeUnits()
    ensures |"abcdef\U{1F600}"| == 7
    ensures ValidateMasterPassword("abcdef\U{1F600}").None?
  {
    assert Utf16Length("\U{1F600}") == 2;
    assert "abcdef\U{1F600}" == "abcdef" + "\U{1F600}";
    Utf16LengthAppend("abcdef", "\U{1F600}");
  }

  /** The validate callbacks of the name, host and username prompts, in the order they are asked. */
  function ValidateConnectionAnswers(a: ConnectionAnswers): (message: Option<string>)
    ensures message.None? <==> a.name != "" && a.host != "" && a.username != ""
  {
    if |a.name| == 0 then Some("Name cannot be empty")
    else if |a.host| == 0 then Some("Host cannot be empty")
    else if |a.username| == 0 then Some("Username cannot be empty")
    else None
  }

  /** The record `addConnection` stores, with `now` for `new Date().toISOString()`. */
  function NewConnection(a: ConnectionAnswers, now: string): Connection {
    Connection(a.host, a.username, a.port, a.keyPath, now, None)
  }

  // ---------------------------------------------------------------- choosing the active workspace

  /** How `initialize` continues once a document is at hand. */
  datatype Resume = ResumeLast(name: string) | MustSelect | Broken(error: JsError)

  /** `!data.lastWorkspace || !data.workspaces[data.lastWorkspace]`, including the throw when
      `workspaces` is absent and `lastWorkspace` is set. */
  function ResumeFrom(d: Doc): Resume {
    if !Truthy(d.lastWorkspace) then MustSelect
    else if d.workspaces.None? then Broken(TypeErrorReading("undefined", d.lastWorkspace.value))
    else if d.lastWorkspace.value in d.workspaces.value then ResumeLast(d.lastWorkspace.value)
    else MustSelect
  }

  /** The active workspace `initialize` settles on, and the document it leaves. */
  function Activate(d: Doc, answers: SelectAnswers, now: string): Step {
    match ResumeFrom(d)
    case Broken(e) => Step(Failure(Thrown(e)), d)
    case ResumeLast(name) => Step(Success(name), d)
    case MustSelect => SelectStep(d, answers, now)
  }

  /** The file after activation: rewritten only when a selection or creation went through. */
  function ActivatedFile(s: FileState, d: Doc, answers: SelectAnswers, now: string, password: string): FileState {
    var step := SelectStep(d, answers, now);
    if ResumeFrom(d).MustSelect? && step.answer.Success? then Saved(step.doc, password) else s
  }

  /** A valid `lastWorkspace` is resumed without touching the document. */
  lemma ResumeKeepsDocument(d: Doc, answers: SelectAnswers, now: string)
    requires Truthy(d.lastWorkspace) && d.workspaces.Some? && d.lastWorkspace.value in d.workspaces.value
    ensures Activate(d, answers, now) == Step(Success(d.lastWorkspace.value), d)
  {
  }

  /** Whatever path it takes, a successful activation ends on an existing workspace that is
      also the document's `lastWorkspace`; a failed one leaves the document as it was. */
  lemma ActivateResolves(d: Doc, answers: SelectAnswers, now: string)
    ensures var step := Activate(d, answers, now);
      && (step.answer.Success? ==>
            && step.doc.workspaces.Some?
            && step.answer.value in step.doc.workspaces.value
            && step.doc.lastWorkspace == Some(step.answer.value))
      && (step.answer.Failure? ==> step.doc == d)
  {
    SelectResolves(d, answers, now);
  }

  // ---------------------------------------------------------------- connections

  /** `workspaces[ws].connections[name] = c` */
  function PutConnection(d: Doc, ws: string, name: string, c: Connection): Doc
    requires d.workspaces.Some? && ws in d.workspaces.value
  {
    var w := d.workspaces.value[ws];
    d.(workspaces := Some(d.workspaces.value[ws := w.(connections := w.connections[name := c])]))
  }

  /** Storing a connection adds or replaces that one entry (there is no duplicate check) and
      changes no other connection, no other workspace and nothing else in the document. */
  lemma PutConnectionEffect(d: Doc, ws: string, name: string, c: Connection)
    requires d.workspaces.Some? && ws in d.workspaces.value
    ensures var e := PutConnection(d, ws, name, c);
      && e.workspaces.Some?
      && e.workspaces.value.Keys == d.workspaces.value.Keys
      && e.workspaces.value[ws].connections.Keys == d.workspaces.value[ws].connections.Keys + {name}
      && e.workspaces.value[ws].connections[name] == c
      && e.workspaces.value[ws].createdAt == d.workspaces.value[ws].createdAt
      && (forall n :: n in d.workspaces.value[ws].connections && n != name ==>
            e.workspaces.value[ws].connections[n] == d.workspaces.value[ws].connections[n])
      && (forall w :: w in d.workspaces.value && w != ws ==> e.workspaces.value[w] == d.workspaces.value[w])
      && e.lastWorkspace == d.lastWorkspace && e.connections == d.connections
  {
  }

  /** The connection `connect` goes on with: the name given, if the workspace holds it; without
      a name, the one picked from the list, unless the list is empty. */
  function ChosenConnection(conns: map<string, Connection>, nameArg: Option<string>, pick: string): (chosen: Option<string>)
    requires !Truthy(nameArg) && |conns| > 0 ==> pick in conns
    ensures chosen.Some? ==> chosen.value in conns
    ensures Truthy(nameArg) ==> (chosen.Some? <==> nameArg.value in conns) && (chosen.Some? ==> chosen.value == nameArg.value)
    ensures !Truthy(nameArg) ==> (chosen.None? <==> |conns| == 0)
  {
    if !Truthy(nameArg) then (if |conns| == 0 then None else Some(pick))
    else if nameArg.value in conns then Some(nameArg.value)
    else None
  }

  /** `connection.name = name` on the stored record. */
  function RecordName(d: Doc, ws: string, name: string): Doc
    requires d.workspaces.Some? && ws in d.workspaces.value && name in d.workspaces.value[ws].connections
  {
    var c := d.workspaces.value[ws].connections[name];
    PutConnection(d, ws, name, c.(name := Some(name)))
  }

  // ---------------------------------------------------------------- the session

  class Manager {
    /** `configPath`: the store file. */
    const file: ConfigFile
    var currentWorkspace: Option<string>
    var masterPassword: Option<string>
    var currentData: Data?

    /** A password is cached exactly when a document is. */
    ghost predicate Valid()
      reads this
    {
      masterPassword.Some? <==> currentData != null
    }

    /** What `initialize` establishes: a loaded document and an active workspace it holds. */
    ghost predicate Ready()
      reads this, currentData
    {
      && Valid()
      && currentData != null
      && currentData.workspaces.Some?
      && currentWorkspace.Some?
      && currentWorkspace.value in currentData.workspaces.value
    }

    /** The active workspace's connections. */
    function ActiveConnections(): map<string, Connection>
      reads this, currentData
      requires Ready()
    {
      currentData.workspaces.value[currentWorkspace.value].connections
    }

    /** The activation step has run on document `d0` and file state `f0`. */
    ghost predicate ActivatedFrom(d0: Doc, f0: FileState, answers: SelectAnswers, now: string,
                                  r: Result<Data, Fault>, before: Option<string>)
      reads this, currentData, file
    {
      var step := Activate(d0, answers, now);
      && currentData != null && masterPassword.Some?
      && currentData.Value() == step.doc
      && file.state == ActivatedFile(f0, d0, answers, now, masterPassword.value)
      && (step.answer.Success? ==> r == Success(currentData) && currentWorkspace == Some(step.answer.value))
      && (step.answer.Failure? ==> r == Failure(step.answer.error) && currentWorkspace == before)
    }

    constructor (file: ConfigFile)
      ensures this.file == file
      ensures currentWorkspace.None? && masterPassword.None? && currentData == null
      ensures Valid()
    {
      this.file := file;
      currentWorkspace := None;
      masterPassword := None;
      currentData := null;
    }

    /** The part of `initialize` after the document is at hand: resume `lastWorkspace`, or
        run the workspace selection. */
    method ActivateWorkspace(answers: SelectAnswers, now: string) returns (r: Result<Data, Fault>)
      requires currentData != null && masterPassword.Some?
      modifies this`currentWorkspace, file, currentData
      ensures currentData == old(currentData) && masterPassword == old(masterPassword)
      ensures ActivatedFrom(old(currentData.Value()), old(file.state), answers, now, r, old(currentWorkspace))
      ensures r.Success? ==> Ready() && currentData.lastWorkspace == currentWorkspace
    {
      var data := currentData;
      ActivateResolves(data.Value(), answers, now);
      var mustSelect := !Truthy(data.lastWorkspace);
      if !mustSelect {
        if data.workspaces.None? {
          return Failure(Thrown(TypeErrorReading("undefined", data.lastWorkspace.value)));
        }
        mustSelect := data.lastWorkspace.value !in data.workspaces.value;
      }
      if mustSelect {
        var selected := SelectWorkspace(file, data, masterPassword.value, answers, now);
        if selected.Failure? {
          return Failure(selected.error);
        }
        currentWorkspace := Some(selected.value);
      } else {
        currentWorkspace := data.lastWorkspace;
      }
      return Success(data);
    }

    /** `initialize`, with the password cached only once the document has loaded
        (the source caches it before loading; see InitializeAsWritten). Loading happens only
        while no password is cached; later calls reuse the cached document. */
    method Initialize(passwordAnswer: string, answers: SelectAnswers, now: string) returns (r: Result<Data, Fault>)
      requires Valid()
      modifies this, file, currentData
      ensures Valid()
      ensures old(masterPassword).Some? ==>
        && masterPassword == old(masterPassword) && currentData == old(currentData)
        && ActivatedFrom(old(currentData.Value()), old(file.state), answers, now, r, old(currentWorkspace))
      ensures old(masterPassword).None? && ValidateMasterPassword(passwordAnswer).Some? ==>
        && r == Failure(Invalid(ValidateMasterPassword(passwordAnswer).value))
        && masterPassword.None? && currentWorkspace == old(currentWorkspace) && file.state == old(file.state)
      ensures old(masterPassword).None? && ValidateMasterPassword(passwordAnswer).None? ==>
        var loaded := LoadResult(old(file.state), passwordAnswer, now);
        && (loaded.Failure? ==>
              && r == Failure(Thrown(loaded.error))
              && masterPassword.None? && currentWorkspace == old(currentWorkspace) && file.state == old(file.state))
        && (loaded.Success? ==>
              && masterPassword == Some(passwordAnswer) && fresh(currentData)
              && ActivatedFrom(loaded.value, LoadedFile(old(file.state), passwordAnswer, now), answers, now, r,
                               old(currentWorkspace)))
      ensures r.Success? ==> Ready() && currentData.lastWorkspace == currentWorkspace
    {
      if masterPassword.None? {
        var invalid := ValidateMasterPassword(passwordAnswer);
        if invalid.Some? {
          return Failure(Invalid(invalid.value));
        }
        var loaded := LoadData(file, passwordAnswer, now);
        if loaded.Failure? {
          return Failure(Thrown(loaded.error));
        }
        masterPassword, currentData := Some(passwordAnswer), loaded.value;
      }
      r := ActivateWorkspace(answers, now);
    }

    /** `initialize` in the source's order: the password is cached before the document is
        loaded, so a load that throws leaves a password and no document, and every later
        call reads `lastWorkspace` of null. */
    method InitializeAsWritten(passwordAnswer: string, answers: SelectAnswers, now: string) returns (r: Result<Data, Fault>)
      modifies this, file, currentData
      ensures old(masterPassword).None? && ValidateMasterPassword(passwordAnswer).None? ==>
        var loaded := LoadResult(old(file.state), passwordAnswer, now);
        && masterPassword == Some(passwordAnswer)
        && (loaded.Failure? ==>
              r == Failure(Thrown(loaded.error)) && currentData == old(currentData) && file.state == old(file.state))
      ensures old(masterPassword).Some? && old(currentData) == null ==>
        && r == Failure(Thrown(TypeErrorReading("null", "lastWorkspace")))
        && masterPassword == old(masterPassword) && currentData == null && file.state == old(file.state)
      ensures r.Success? ==> Ready() && currentData.lastWorkspace == currentWorkspace
    {
      if masterPassword.None? {
        var invalid := ValidateMasterPassword(passwordAnswer);
        if invalid.Some? {
          return Failure(Invalid(invalid.value));
        }
        masterPassword := Some(passwordAnswer);
        var loaded := LoadData(file, passwordAnswer, now);
        if loaded.Failure? {
          return Failure(Thrown(loaded.error));
        }
        currentData := loaded.value;
      }
      if currentData == null {
        return Failure(Thrown(TypeErrorReading("null", "lastWorkspace")));
      }
      r := ActivateWorkspace(answers, now);
    }

    /** `switchWorkspace`: initialize, then run the selection again with `answers`. */
    method SwitchWorkspace(passwordAnswer: string, initial: SelectAnswers, answers: SelectAnswers, now: string)
      returns (r: Result<string, Fault>)
      requires Valid()
      modifies this, file, currentData
      ensures Valid()
      ensures r.Success? ==>
        && Ready() && currentWorkspace == Some(r.value) && currentData.lastWorkspace == currentWorkspace
        && file.state == Saved(currentData.Value(), masterPassword.value)
    {
      var init := Initialize(passwordAnswer, initial, now);
      if init.Failure? {
        return Failure(init.error);
      }
      var data := currentData;
      SelectResolves(data.Value(), answers, now);
      r := SelectWorkspace(file, data, masterPassword.value, answers, now);
      if r.Success? {
        currentWorkspace := Some(r.value);
      }
    }

    /** The insertion of `addConnection` once the session is ready: the answers are stored
        under their name in the active workspace and the document is saved. */
    method AddConnection(answers: ConnectionAnswers, now: string) returns (r: Result<string, Fault>)
      requires Ready()
      modifies currentData, file
      ensures Ready()
      ensures ValidateConnectionAnswers(answers).Some? ==>
        && r == Failure(Invalid(ValidateConnectionAnswers(answers).value))
        && currentData.Value() == old(currentData.Value()) && file.state == old(file.state)
      ensures ValidateConnectionAnswers(answers).None? ==>
        && r == Success(answers.name)
        && currentData.Value() ==
             PutConnection(old(currentData.Value()), currentWorkspace.value, answers.name, NewConnection(answers, now))
        && file.state == Saved(currentData.Value(), masterPassword.value)
    {
      var invalid := ValidateConnectionAnswers(answers);
      if invalid.Some? {
        return Failure(Invalid(invalid.value));
      }
      var workspaces := currentData.workspaces.value;
      var ws := workspaces[currentWorkspace.value];
      currentData.workspaces :=
        Some(workspaces[currentWorkspace.value := ws.(connections := ws.connections[answers.name := NewConnection(answers, now)])]);
      SaveData(file, currentData, masterPassword.value);
      return Success(answers.name);
    }

    /** The emptiness check of `listConnections`: None for the "no connections" message,
        otherwise the connections listed. */
    method ListConnections() returns (listed: Option<map<string, Connection>>)
      requires currentData != null && currentData.workspaces.Some? && currentWorkspace.Some?
      ensures var ws := currentData.workspaces.value;
        && (listed.None? <==> currentWorkspace.value !in ws || |ws[currentWorkspace.value].connections| == 0)
        && (listed.Some? ==> listed.value == ws[currentWorkspace.value].connections)
    {
      var ws := currentData.workspaces.value;
      if currentWorkspace.value !in ws || |ws[currentWorkspace.value].connections| == 0 {
        return None;
      }
      return Some(ws[currentWorkspace.value].connections);
    }

    /** The lookup of `connect` once the session is ready: the connection handed to
        `connectToServer` (with its `name` written into the stored record) and the `ssh`
        arguments built for it, or nothing. The document is not saved. */
    method Connect(nameArg: Option<string>, pick: string) returns (connection: Option<Connection>, args: Option<seq<string>>)
      requires Ready()
      requires !Truthy(nameArg) && |ActiveConnections()| > 0 ==> pick in ActiveConnections()
      modifies currentData
      ensures Ready()
      ensures var d := old(currentData.Value());
        var chosen := ChosenConnection(old(ActiveConnections()), nameArg, pick);
        && (chosen.None? ==> connection.None? && args.None? && currentData.Value() == d)
        && (chosen.Some? ==>
              && connection == Some(old(ActiveConnections())[chosen.value].(name := chosen))
              && args == Some(SshArgs(connection.value))
              && currentData.Value() == RecordName(d, currentWorkspace.value, chosen.value))
    {
      var conns := ActiveConnections();
      var name: string;
      if !Truthy(nameArg) {
        if |conns| == 0 {
          return None, None;
        }
        name := pick;
      } else {
        if nameArg.value !in conns {
          return None, None;
        }
        name := nameArg.value;
      }
      var stored := conns[name].(name := Some(name));
      var workspaces := currentData.workspaces.value;
      var ws := workspaces[currentWorkspace.value];
      currentData.workspaces :=
        Some(workspaces[currentWorkspace.value := ws.(connections := ws.connections[name := stored])]);
      var built := BuildSshArgs(stored);
      return Some(stored), Some(built);
    }

    /** `reset`: `unlinkError` is what `fs.unlink` threw, if anything. The session is cleared
        only after the file is gone; a missing file is not an error and clears nothing. */
    method Reset(unlinkError: Option<JsError>) returns (r: Result<(), JsError>)
      requires file.state.Missing? <==> unlinkError.Some? && unlinkError.value.code == Some("ENOENT")
      modifies this, file
      ensures unlinkError.None? ==>
        && r == Success(()) && file.state == Missing
        && currentWorkspace.None? && masterPassword.None? && currentData == null
      ensures unlinkError.Some? ==>
        && (r.Success? <==> unlinkError.value.code == Some("ENOENT"))
        && (r.Failure? ==> r.error == unlinkError.value)
        && file.state == old(file.state)
        && currentWorkspace == old(currentWorkspace) && masterPassword == old(masterPassword)
        && currentData == old(currentData)
      ensures old(Valid()) ==> Valid()
    {
      if unlinkError.None? {
        file.state := Missing;
        currentWorkspace := None;
        masterPassword := None;
        currentData := null;
        return Success(());
      }
      if unlinkError.value.code != Some("ENOENT") {
        return Failure(unlinkError.value);
      }
      return Success(());
    }
  }

  // ---------------------------------------------------------------- a failed load, twice

  /** A load error that is neither a missing file nor an authentication failure:
      `loadData` passes it on unchanged. */
  predicate PlainLoadError(e: JsError) {
    e.code != Some("ENOENT") && !Includes(e.message, "authenticate")
  }

  /** What `JSON.parse` throws on an empty file (V8's wording; a file cut elsewhere reads differently). */
  const TruncatedFile := JsError(None, "Unexpected end of JSON input")

  /** The error of an empty store file is such an error. */
  lemma TruncatedFileIsPlain()
    ensures PlainLoadError(TruncatedFile)
  {
    var m := TruncatedFile.message;
    forall k | 0 <= k < |m|
      ensures m[k] != 'a'
    {
    }
    assert "authenticate"[0] == 'a';
    MissingCharExcludes(m, "authenticate", 'a');
  }

  /** As written: after one failed load the session keeps the password without a document,
      and the next `initialize` fails on `lastWorkspace` of null instead of loading again. */
  method StrandedSession(parseError: JsError) returns (first: Result<Data, Fault>, second: Result<Data, Fault>)
    requires PlainLoadError(parseError)
    ensures first == Failure(Thrown(parseError))
    ensures second == Failure(Thrown(TypeErrorReading("null", "lastWorkspace")))
  {
    var file := new ConfigFile(Holds(Unparsable(parseError)));
    var session := new Manager(file);
    var answers := SelectAnswers("work", "work");
    LoadOtherErrorRethrown(file.state, "hunter2pass", "t0");
    first := session.InitializeAsWritten("hunter2pass", answers, "t0");
    second := session.InitializeAsWritten("hunter2pass", answers, "t1");
  }

  /** Corrected: a failed load leaves the session without password or document, so the next
      `initialize` prompts and loads again and reports the file's own error again. */
  method RetriedSession(parseError: JsError) returns (first: Result<Data, Fault>, second: Result<Data, Fault>)
    requires PlainLoadError(parseError)
    ensures first == Failure(Thrown(parseError))
    ensures second == Failure(Thrown(parseError))
  {
    var file := new ConfigFile(Holds(Unparsable(parseError)));
    var session := new Manager(file);
    var answers := SelectAnswers("work", "work");
    LoadOtherErrorRethrown(file.state, "hunter2pass", "t0");
    LoadOtherErrorRethrown(file.state, "hunter2pass", "t1");
    first := session.Initialize("hunter2pass", answers, "t0");
    second := session.Initialize("hunter2pass", answers, "t1");
  }

  // ---------------------------------------------------------------- a first run, end to end

  /** No file; the first session, under `password`, creates workspace `work`, adds one
      connection and saves. A later session with the same password resumes `work` and finds
      exactly that connection; a session with `other` is told the password is incorrect. */
  method FirstRun(password: string, other: string) returns (reloaded: Result<Data, Fault>, rejected: Result<Data, Fault>)
    requires |password| >= 8 && |other| >= 8 && other != password
    ensures reloaded.Success?
    ensures reloaded.value.Value().workspaces ==
      Some(map["work" := Workspace(map["prod" := Connection("10.0.0.1", "ops", 22, "", "t1", None)], "t0")])
    ensures reloaded.value.Value().lastWorkspace == Some("work")
    ensures rejected == Failure(Thrown(IncorrectPassword))
  {
    var file := new ConfigFile(Missing);
    var first := new Manager(file);
    LoadMissingFile(password, "t0");
    var started := first.Initialize(password, SelectAnswers("", "work"), "t0");
    assert started.Success?;
    assert first.currentData.Value() == Doc(Some(map["work" := Workspace(map[], "t0")]), Some("work"), None);
    assert first.currentWorkspace == Some("work");
    var added := first.AddConnection(ConnectionAnswers("prod", "10.0.0.1", "ops", "", 22), "t1");
    assert added == Success("prod");
    ghost var saved := first.currentData.Value();
    ghost var created := Doc(Some(map["work" := Workspace(map[], "t0")]), Some("work"), None);
    ghost var record := Connection("10.0.0.1", "ops", 22, "", "t1", None);
    assert saved == PutConnection(created, "work", "prod", record);
    assert map["work" := Workspace(map[], "t0")]["work" := Workspace(map["prod" := record], "t0")]
        == map["work" := Workspace(map["prod" := record], "t0")];
    assert saved.workspaces ==
      Some(map["work" := Workspace(map["prod" := Connection("10.0.0.1", "ops", 22, "", "t1", None)], "t0")]);
    assert file.state == Saved(saved, password);

    var second := new Manager(file);
    SaveLoadRoundTrip(saved, password, "t2", "t2");
    reloaded := second.Initialize(password, SelectAnswers("", ""), "t2");

    var third := new Manager(file);
    LoadWrongPassword(saved, password, other, "t3");
    rejected := third.Initialize(other, SelectAnswers("", ""), "t3");
  }
}
