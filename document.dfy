/** The decrypted store: a document of workspaces, each holding named connections.
    `Doc` is its value (what `JSON.stringify` writes and `JSON.parse` reads back);
    `Data` is the live object the application mutates in place. */
module Document {
  import opened Js

  /** A stored connection profile. `keyPath` is `""` when no key was chosen; `name` is
      absent until a connect writes it into the record. */
  datatype Connection = Connection(
    host: string,
    username: string,
    port: int,
    keyPath: string,
    createdAt: string,
    name: Option<string>)

  datatype Workspace = Workspace(connections: map<string, Connection>, createdAt: string)

  /** The top-level object. A field the object does not have (or holds null) is None;
      `connections` is the legacy single-list format. */
  datatype Doc = Doc(
    workspaces: Option<map<string, Workspace>>,
    lastWorkspace: Option<string>,
    connections: Option<map<string, Connection>>)

  /** `{ workspaces: {}, lastWorkspace: null }` */
  const EmptyDoc := Doc(Some(map[]), None, None)

  /** `lastWorkspace`, when set, names a workspace of the document. */
  predicate LastWorkspaceResolves(d: Doc) {
    d.lastWorkspace.Some? ==> d.workspaces.Some? && d.lastWorkspace.value in d.workspaces.value
  }

  /** The workspace names the document holds (none when `workspaces` is absent). */
  function Names(d: Doc): set<string> {
    if d.workspaces.Some? then d.workspaces.value.Keys else {}
  }

  /** The document object, updated in place by the store operations. */
  class Data {
    var workspaces: Option<map<string, Workspace>>
    var lastWorkspace: Option<string>
    var connections: Option<map<string, Connection>>

    function Value(): Doc
      reads this
    {
      Doc(workspaces, lastWorkspace, connections)
    }

    /** A fresh object holding `d`, as `JSON.parse` or an object literal builds it. */
    constructor (d: Doc)
      ensures Value() == d
    {
      workspaces := d.workspaces;
      lastWorkspace := d.lastWorkspace;
      connections := d.connections;
    }
  }
}
