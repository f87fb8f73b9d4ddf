/** The encrypted file that holds the document, at the level the store sees it.
    Key derivation and the authenticated cipher are abstract: an envelope records the
    document and the password its key was derived from, and opening it succeeds exactly
    with that password. */
module Storage {
  import opened Js
  import opened Document

  datatype Envelope = Envelope(payload: Doc, sealedUnder: string)

  /** The error Node's AES-GCM decipher throws when the authentication tag does not match. */
  const AuthTagMismatch := JsError(None, "Unsupported state or unable to authenticate data")

  /** The error `fs.readFile` throws for a path that does not exist. */
  const NoSuchFile := JsError(Some("ENOENT"), "ENOENT: no such file or directory")

  /** Decryption: the key is derived again from the password and the envelope's own salt. */
  function Open(e: Envelope, password: string): Result<Doc, JsError> {
    if password == e.sealedUnder then Success(e.payload) else Failure(AuthTagMismatch)
  }

  /** Encryption of a document under a password. */
  function Seal(d: Doc, password: string): (e: Envelope)
    ensures Open(e, password) == Success(d)
    ensures forall other :: other != password ==> Open(e, other) == Failure(AuthTagMismatch)
  {
    Envelope(d, password)
  }

  /** What the file holds once it exists and can be read: a parsable envelope, or text
      that `JSON.parse` (or reading the envelope's fields) rejects with `error`. */
  datatype Content = Unparsable(error: JsError) | Sealed(envelope: Envelope)

  datatype FileState = Missing | Unreadable(error: JsError) | Holds(content: Content)

  /** The file as `saveData` leaves it. */
  function Saved(d: Doc, password: string): FileState {
    Holds(Sealed(Seal(d, password)))
  }

  /** `readFile`, `JSON.parse` and `decrypt` in sequence: the document, or the first error thrown. */
  function ReadPayload(s: FileState, password: string): Result<Doc, JsError> {
    match s
    case Missing => Failure(NoSuchFile)
    case Unreadable(e) => Failure(e)
    case Holds(Unparsable(e)) => Failure(e)
    case Holds(Sealed(env)) => Open(env, password)
  }

  /** The configuration file on disk (`~/.ssh-manager`). */
  class ConfigFile {
    var state: FileState

    constructor (s: FileState)
      ensures state == s
    {
      state := s;
    }
  }
}
