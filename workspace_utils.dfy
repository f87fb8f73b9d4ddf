/** Loading, migrating, saving and editing the workspace document
    (`WorkspaceUtils` in src/lib/workspace-utils.js). Each method mutates the `Data`
    object it is given and persists it; the pure functions beside them give the
    resulting document and answer, and the lemmas state what those promise. */
module WorkspaceUtils {
  import opened Js
  import opened Document
  import opened Storage

  /** How an interactive call ends without a result. */
  datatype Fault =
    | Thrown(error: JsError)      // an exception propagates to the caller
    | Invalid(message: string)    // a prompt's validate callback refused the answer with this message
    | NotOffered(choice: string)  // a list answer that was not one of the listed choices

  /** The answer of a call together with the document it leaves behind. */
  datatype Step = Step(answer: Result<string, Fault>, doc: Doc)

  /** The answers a workspace selection may read: the list choice, and the name typed
      when a new workspace is created. */
  datatype SelectAnswers = SelectAnswers(choice: string, newName: string)

  const IncorrectPassword := JsError(None, "Incorrect master password")
  const DefaultWorkspace := "default"
  const CreateNewChoice := "+ Create new workspace"

  // ---------------------------------------------------------------- loading

  /** The legacy format: a top-level `connections` object and no `workspaces`. */
  predicate IsLegacy(d: Doc) {
    d.connections.Some? && d.workspaces.None?
  }

  /** The migration step of `loadData`, with `now` standing for `new Date().toISOString()`. */
  function Migrate(d: Doc, now: string): Doc {
    if IsLegacy(d) then
      Doc(Some(map[DefaultWorkspace := Workspace(d.connections.value, now)]), Some(DefaultWorkspace), None)
    else d
  }

  /** The `catch` of `loadData`. */
  function RecoverLoadError(e: JsError): Result<Doc, JsError> {
    if e.code == Some("ENOENT") then Success(EmptyDoc)
    else if Includes(e.message, "authenticate") then Failure(IncorrectPassword)
    else Failure(e)
  }

  /** What `loadData` returns or throws for a file in state `s`. */
  function LoadResult(s: FileState, password: string, now: string): Result<Doc, JsError> {
    match ReadPayload(s, password)
    case Success(d) => Success(Migrate(d, now))
    case Failure(e) => RecoverLoadError(e)
  }

  /** The file after `loadData`: rewritten only when a legacy document was migrated. */
  function LoadedFile(s: FileState, password: string, now: string): FileState {
    match ReadPayload(s, password)
    case Success(d) => if IsLegacy(d) then Saved(Migrate(d, now), password) else s
    case Failure(_) => s
  }

  /** `saveData`: encrypt the whole document and overwrite the file. */
  method SaveData(file: ConfigFile, data: Data, password: string)
    modifies file
    ensures file.state == Saved(data.Value(), password)
  {
    file.state := Saved(data.Value(), password);
  }

  /** `loadData`: a fresh document object, or the error the caller sees. */
  method LoadData(file: ConfigFile, password: string, now: string) returns (r: Result<Data, JsError>)
    modifies file
    ensures r.Success? <==> LoadResult(old(file.state), password, now).Success?
    ensures r.Success? ==> fresh(r.value) && r.value.Value() == LoadResult(old(file.state), password, now).value
    ensures r.Failure? ==> r.error == LoadResult(old(file.state), password, now).error
    ensures file.state == LoadedFile(old(file.state), password, now)
  {
    var payload := ReadPayload(file.state, password);
    if payload.Failure? {
      var e := payload.error;
      if e.code == Some("ENOENT") {
        var empty := new Data(EmptyDoc);
        return Success(empty);
      }
      if Includes(e.message, "authenticate") {
        return Failure(IncorrectPassword);
      }
      return Failure(e);
    }
    var data := new Data(payload.value);
    if data.connections.Some? && data.workspaces.None? {
      data.workspaces := Some(map[DefaultWorkspace := Workspace(data.connections.value, now)]);
      data.lastWorkspace := Some(DefaultWorkspace);
      data.connections := None;
      SaveData(file, data, password);
    }
    return Success(data);
  }

  // ---------------------------------------------------------------- creating and selecting

  /** The validate callback of the new-workspace prompt. Its `data.workspaces[input]`
      throws when the document has no `workspaces` object. */
  function ValidateWorkspaceName(workspaces: Option<map<string, Workspace>>, input: string): Result<string, Fault> {
    if |input| == 0 then Failure(Invalid("Name cannot be empty"))
    else if workspaces.None? then Failure(Thrown(TypeErrorReading("undefined", input)))
    else if input in workspaces.value then Failure(Invalid("Workspace already exists"))
    else Success(input)
  }

  function WorkspacesOrEmpty(d: Doc): map<string, Workspace> {
    if d.workspaces.Some? then d.workspaces.value else map[]
  }

  /** `createNewWorkspace` with `name` as the prompt's answer. */
  function CreateStep(d: Doc, name: string, now: string): Step {
    match ValidateWorkspaceName(d.workspaces, name)
    case Failure(f) => Step(Failure(f), d)
    case Success(_) =>
      Step(Success(name),
           d.(workspaces := Some(WorkspacesOrEmpty(d)[name := Workspace(map[], now)]),
              lastWorkspace := Some(name)))
  }

  /** `selectWorkspace` with `answers` as the prompts' answers. */
  function SelectStep(d: Doc, answers: SelectAnswers, now: string): Step {
    if d.workspaces.None? || |d.workspaces.value| == 0 then CreateStep(d, answers.newName, now)
    else if answers.choice == CreateNewChoice then CreateStep(d, answers.newName, now)
    else if answers.choice in d.workspaces.value then
      Step(Success(answers.choice), d.(lastWorkspace := Some(answers.choice)))
    else Step(Failure(NotOffered(answers.choice)), d)
  }

  method CreateNewWorkspace(file: ConfigFile, data: Data, password: string, name: string, now: string)
    returns (r: Result<string, Fault>)
    modifies file, data
    ensures r == CreateStep(old(data.Value()), name, now).answer
    ensures data.Value() == CreateStep(old(data.Value()), name, now).doc
    ensures file.state == if r.Success? then Saved(data.Value(), password) else old(file.state)
  {
    var valid := ValidateWorkspaceName(data.workspaces, name);
    if valid.Failure? {
      return Failure(valid.error);
    }
    if data.workspaces.None? {
      data.workspaces := Some(map[]);
    }
    data.workspaces := Some(data.workspaces.value[name := Workspace(map[], now)]);
    data.lastWorkspace := Some(name);
    SaveData(file, data, password);
    return Success(name);
  }

  method SelectWorkspace(file: ConfigFile, data: Data, password: string, answers: SelectAnswers, now: string)
    returns (r: Result<string, Fault>)
    modifies file, data
    ensures r == SelectStep(old(data.Value()), answers, now).answer
    ensures data.Value() == SelectStep(old(data.Value()), answers, now).doc
    ensures file.state == if r.Success? then Saved(data.Value(), password) else old(file.state)
  {
    if data.workspaces.None? || |data.workspaces.value| == 0 {
      r := CreateNewWorkspace(file, data, password, answers.newName, now);
      return;
    }
    if answers.choice == CreateNewChoice {
      r := CreateNewWorkspace(file, data, password, answers.newName, now);
      return;
    }
    if answers.choice !in data.workspaces.value {
      return Failure(NotOffered(answers.choice));
    }
    data.lastWorkspace := Some(answers.choice);
    SaveData(file, data, password);
    return Success(answers.choice);
  }

  // ---------------------------------------------------------------- properties

  /** Migration fires exactly on the legacy shape, and then wraps the old connections into
      a single `default` workspace, selects it and drops the top-level `connections`. */
  lemma MigrateShape(d: Doc, now: string)
    ensures Migrate(d, now) != d <==> IsLegacy(d)
    ensures IsLegacy(d) ==>
      && Migrate(d, now).workspaces == Some(map[DefaultWorkspace := Workspace(d.connections.value, now)])
      && Migrate(d, now).lastWorkspace == Some(DefaultWorkspace)
      && Migrate(d, now).connections.None?
      && LastWorkspaceResolves(Migrate(d, now))
  {
  }

  /** Migrating a migrated document changes nothing, whatever the clock says. */
  lemma MigrateIdempotent(d: Doc, now: string, later: string)
    ensures !IsLegacy(Migrate(d, now))
    ensures Migrate(Migrate(d, now), later) == Migrate(d, now)
  {
  }

  /** No file: the empty document, and no file is created. */
  lemma LoadMissingFile(password: string, now: string)
    ensures LoadResult(Missing, password, now) == Success(EmptyDoc)
    ensures LoadedFile(Missing, password, now) == Missing
  {
  }

  /** A file sealed under another password reads as "Incorrect master password", and is left as it is. */
  lemma LoadWrongPassword(d: Doc, password: string, attempt: string, now: string)
    requires attempt != password
    ensures LoadResult(Saved(d, password), attempt, now) == Failure(IncorrectPassword)
    ensures LoadedFile(Saved(d, password), attempt, now) == Saved(d, password)
  {
    assert AuthTagMismatch.message == "Unsupported state or unable to " + "authenticate" + " data";
    IncludesInfix("Unsupported state or unable to ", "authenticate", " data");
  }

  /** A read or parse error that is neither a missing file nor an authentication failure
      reaches the caller unchanged. */
  lemma LoadOtherErrorRethrown(s: FileState, password: string, now: string)
    requires ReadPayload(s, password).Failure?
    requires ReadPayload(s, password).error.code != Some("ENOENT")
    requires !Includes(ReadPayload(s, password).error.message, "authenticate")
    ensures LoadResult(s, password, now) == Failure(ReadPayload(s, password).error)
    ensures LoadedFile(s, password, now) == s
  {
  }

  /** Saving then loading with the same password gives back the document (migrated if it was
      legacy), and loading the file again after that neither changes it nor re-migrates. */
  lemma SaveLoadRoundTrip(d: Doc, password: string, now: string, later: string)
    ensures LoadResult(Saved(d, password), password, now) == Success(Migrate(d, now))
    ensures LoadedFile(Saved(d, password), password, now) == Saved(Migrate(d, now), password)
    ensures var s := LoadedFile(Saved(d, password), password, now);
      LoadResult(s, password, later) == Success(Migrate(d, now)) && LoadedFile(s, password, later) == s
  {
    MigrateIdempotent(d, now, later);
  }

  /** Creation accepts exactly a non-empty name the document does not hold yet
      (and needs a `workspaces` object to look the name up in); a refusal changes nothing. */
  lemma CreateAccepts(d: Doc, name: string, now: string)
    ensures CreateStep(d, name, now).answer.Success? <==>
      name != "" && d.workspaces.Some? && name !in d.workspaces.value
    ensures CreateStep(d, name, now).answer.Failure? ==> CreateStep(d, name, now).doc == d
    ensures name == "" ==> CreateStep(d, name, now).answer == Failure(Invalid("Name cannot be empty"))
  {
  }

  /** A created workspace is empty, stamped with `now` and selected; every other workspace
      and the rest of the document stay as they were. */
  lemma CreateAdds(d: Doc, name: string, now: string)
    requires CreateStep(d, name, now).answer.Success?
    ensures var e := CreateStep(d, name, now).doc;
      && e.workspaces.Some? && d.workspaces.Some?
      && e.workspaces.value.Keys == d.workspaces.value.Keys + {name}
      && e.workspaces.value[name] == Workspace(map[], now)
      && (forall w :: w in d.workspaces.value ==> e.workspaces.value[w] == d.workspaces.value[w])
      && e.lastWorkspace == Some(name)
      && e.connections == d.connections
      && |e.workspaces.value| == |d.workspaces.value| + 1
  {
  }

  /** Picking a listed workspace selects it and changes nothing else. */
  lemma SelectExisting(d: Doc, answers: SelectAnswers, now: string)
    requires d.workspaces.Some? && answers.choice in d.workspaces.value
    requires answers.choice != CreateNewChoice
    ensures SelectStep(d, answers, now) == Step(Success(answers.choice), d.(lastWorkspace := Some(answers.choice)))
  {
  }

  /** With no workspace to list, selection is creation. */
  lemma SelectWithoutWorkspaces(d: Doc, answers: SelectAnswers, now: string)
    requires d.workspaces.None? || d.workspaces.value == map[]
    ensures SelectStep(d, answers, now) == CreateStep(d, answers.newName, now)
  {
  }

  /** After a successful create or select, `lastWorkspace` is the answer and names an
      existing workspace; after a refusal the document is untouched. */
  lemma SelectResolves(d: Doc, answers: SelectAnswers, now: string)
    ensures var step := SelectStep(d, answers, now);
      && (step.answer.Success? ==>
            && step.doc.lastWorkspace == Some(step.answer.value)
            && step.answer.value in Names(step.doc)
            && LastWorkspaceResolves(step.doc)
            && Names(d) <= Names(step.doc))
      && (step.answer.Failure? ==> step.doc == d)
  {
  }
}
