/**
 * The documents the validator's tests feed it, with the verdicts the tests
 * expect, proved of the model. Where a test loops over sample strings, one
 * lemma states the verdict for every string and the samples follow from it.
 */
module Scenarios {
  import opened Wrappers
  import opened Json
  import opened Schema
  import opened Config

  function Document(remotes: seq<Member>, files: seq<Member>): Value {
    Obj([Member("remotes", Obj(remotes)), Member("files", Obj(files))])
  }

  function Entry(source: string, destination: string): Value {
    Obj([Member("source", Str(source)), Member("destination", Str(destination))])
  }

  /** One remote `origin` with one entry, the document every sample test builds. */
  function SingleFileDocument(url: string, version: Option<string>, source: string, destination: string): Value {
    var versionMember := if version.Some? then [Member("version", Str(version.value))] else [];
    Document([Member("origin", Obj([Member("url", Str(url))] + versionMember))],
             [Member("origin", Arr([Entry(source, destination)]))])
  }

  /** Any url that is a non-empty string, any version string and any source and destination strings are accepted, unchanged. */
  lemma SingleFileAccepted(url: string, version: Option<string>, source: string, destination: string)
    requires url != []
    ensures Validate(SingleFileDocument(url, version, source, destination))
            == Success(SingleFileDocument(url, version, source, destination))
  {
    var c := Configuration([RemoteSpec("origin", url, None, version)],
                           [FileGroup("origin", [FileEntry(source, destination, None, false)])]);
    assert c.remotes[0].name == "origin";
    assert AllEntries(c.files) == [FileEntry(source, destination, None, false)];
    assert Consistent(c);
    ToDocumentAccepted(c);
    var e := FileEntry(source, destination, None, false);
    assert EntryToValue(e).members == Entry(source, destination).members + [] + [];
    assert Entry(source, destination).members + [] + [] == Entry(source, destination).members;
    var g := GroupToMember(c.files[0]);
    assert |g.val.items| == 1 && g.val.items[0] == Entry(source, destination);
    assert g == Member("origin", Arr([Entry(source, destination)]));
    var versionMember := if version.Some? then [Member("version", Str(version.value))] else [];
    assert RemoteToMember(c.remotes[0]).val.members == [Member("url", Str(url))] + [] + versionMember;
    var td := ToDocument(c);
    var doc := SingleFileDocument(url, version, source, destination);
    assert RemoteToMember(c.remotes[0]) == doc.members[0].val.members[0];
    assert td.members[0].val.members == doc.members[0].val.members;
    assert td.members[1].val.members == doc.members[1].val.members;
    assert td.members == doc.members;
  }

  /** test_validate_valid_config: the document comes back unchanged. */
  lemma ValidConfigReturnedUnchanged()
    ensures Validate(SingleFileDocument("https://github.com/example/repo.git", Some("main"), "file.py", "dest/file.py"))
            == Success(SingleFileDocument("https://github.com/example/repo.git", Some("main"), "file.py", "dest/file.py"))
  {
    SingleFileAccepted("https://github.com/example/repo.git", Some("main"), "file.py", "dest/file.py");
  }

  /** test_validate_invalid_config_structure: `remotes` a string, `files` a list. */
  lemma InvalidStructureRejected()
    ensures Validate(Obj([Member("remotes", Str("not an object")), Member("files", Arr([]))]))
            == Failure(SchemaViolation([Field("remotes")], NotObject))
  {
    RemotesNotObjectRejected(Obj([Member("remotes", Str("not an object")), Member("files", Arr([]))]));
  }

  /** test_validate_missing_required_fields: remote `origin` has a version but no url. */
  lemma MissingUrlReported()
    ensures Validate(Document([Member("origin", Obj([Member("version", Str("main"))]))], []))
            == Failure(SchemaViolation([Field("remotes"), Field("origin")], MissingField("url")))
  {
    var remote := Obj([Member("version", Str("main"))]);
    var remotes := [Member("origin", remote)];
    assert CheckRemote(remote) == Violation(MissingField("url"));
    assert CheckRemotes(remotes, 1) == Pass;
    assert [Field("origin")] + [] == [Field("origin")];
    assert CheckRemotes(remotes, 0) == Fail(SchemaViolation([Field("origin")], MissingField("url")));
    assert [Field("remotes")] + [Field("origin")] == [Field("remotes"), Field("origin")];
    var doc := Document(remotes, []);
    assert Lookup(doc.members, "remotes") == Some(Obj(remotes));
    assert Lookup(doc.members, "files") == Some(Obj([]));
  }

  /** test_validate_invalid_remote_reference: a well-formed entry under the undeclared remote `nonexistent`. */
  lemma UndeclaredRemoteReported()
    ensures Validate(Document([Member("origin", Obj([Member("url", Str("https://github.com/example/repo.git"))]))],
                              [Member("nonexistent", Arr([Entry("file.py", "dest/file.py")]))]))
            == Failure(UndeclaredRemote("nonexistent"))
  {
  }

  /** test_validate_duplicate_destinations: two sources under `origin` with one destination. */
  lemma DuplicateDestinationReported()
    ensures Validate(Document([Member("origin", Obj([Member("url", Str("https://github.com/example/repo.git"))]))],
                              [Member("origin", Arr([Entry("file1.py", "dest/file.py"), Entry("file2.py", "dest/file.py")]))]))
            == Failure(DuplicateDestination("dest/file.py"))
  {
  }

  /** The document of test_validate_config_with_optional_fields: every optional member present. */
  function OptionalFieldsDocument(): Value {
    Document([Member("origin", Obj([Member("url", Str("https://github.com/example/repo.git")),
                                    Member("base_path", Str("src")),
                                    Member("version", Str("develop"))]))],
             [Member("origin", Arr([Obj([Member("source", Str("file.py")),
                                         Member("destination", Str("dest/file.py")),
                                         Member("hash", Str("abc123def456")),
                                         Member("ignore_changes", Bool(true))])]))])
  }

  /** test_validate_config_with_optional_fields: accepted unchanged, and every optional value reaches the typed configuration. */
  lemma OptionalFieldsAccepted()
    ensures Validate(OptionalFieldsDocument()) == Success(OptionalFieldsDocument())
    ensures Load(OptionalFieldsDocument()) == Success(Configuration(
              [RemoteSpec("origin", "https://github.com/example/repo.git", Some("src"), Some("develop"))],
              [FileGroup("origin", [FileEntry("file.py", "dest/file.py", Some("abc123def456"), true)])]))
  {
    var r := RemoteSpec("origin", "https://github.com/example/repo.git", Some("src"), Some("develop"));
    var e := FileEntry("file.py", "dest/file.py", Some("abc123def456"), true);
    var c := Configuration([r], [FileGroup("origin", [e])]);
    assert c.remotes[0].name == "origin";
    assert AllEntries(c.files) == [e] + AllEntries([]);
    assert Consistent(c);
    var doc := OptionalFieldsDocument();
    assert [Member("url", Str(r.url))] + [Member("base_path", Str("src"))] + [Member("version", Str("develop"))]
           == doc.members[0].val.members[0].val.members;
    assert RemoteToMember(r) == doc.members[0].val.members[0];
    assert [Member("source", Str(e.source)), Member("destination", Str(e.destination))]
           + [Member("hash", Str("abc123def456"))] + [Member("ignore_changes", Bool(true))]
           == doc.members[1].val.members[0].val.items[0].members;
    assert EntryToValue(e) == doc.members[1].val.members[0].val.items[0];
    var g := GroupToMember(c.files[0]);
    assert |g.val.items| == 1 && g.val.items[0] == EntryToValue(e);
    assert g == doc.members[1].val.members[0];
    var td := ToDocument(c);
    assert |td.members[0].val.members| == 1 && td.members[0].val.members[0] == RemoteToMember(r);
    assert |td.members[1].val.members| == 1 && td.members[1].val.members[0] == g;
    assert td.members[0].val.members == doc.members[0].val.members;
    assert td.members[1].val.members == doc.members[1].val.members;
    assert td.members == doc.members;
    ToDocumentAccepted(c);
    RoundTrip(c);
  }

  /** test_url_format_validation: https, scp-style and ssh urls alike. */
  lemma UrlShapesAccepted()
    ensures Validate(SingleFileDocument("https://github.com/user/repo.git", None, "file.py", "dest/file.py")).Success?
    ensures Validate(SingleFileDocument("git@github.com:user/repo.git", None, "file.py", "dest/file.py")).Success?
    ensures Validate(SingleFileDocument("https://gitlab.com/user/repo.git", None, "file.py", "dest/file.py")).Success?
    ensures Validate(SingleFileDocument("ssh://git@example.com/user/repo.git", None, "file.py", "dest/file.py")).Success?
  {
    SingleFileAccepted("https://github.com/user/repo.git", None, "file.py", "dest/file.py");
    SingleFileAccepted("git@github.com:user/repo.git", None, "file.py", "dest/file.py");
    SingleFileAccepted("https://gitlab.com/user/repo.git", None, "file.py", "dest/file.py");
    SingleFileAccepted("ssh://git@example.com/user/repo.git", None, "file.py", "dest/file.py");
  }

  /** test_source_destination_patterns: directories with a trailing `/` and sources reaching up with `../`. */
  lemma PathPatternsAccepted()
    ensures Validate(SingleFileDocument("https://github.com/user/repo.git", None, "file.py", "dest/file.py")).Success?
    ensures Validate(SingleFileDocument("https://github.com/user/repo.git", None, "dir/", "target/")).Success?
    ensures Validate(SingleFileDocument("https://github.com/user/repo.git", None, "../config.yaml", "config/settings.yaml")).Success?
    ensures Validate(SingleFileDocument("https://github.com/user/repo.git", None, "templates/", "project-templates/")).Success?
  {
    SingleFileAccepted("https://github.com/user/repo.git", None, "file.py", "dest/file.py");
    SingleFileAccepted("https://github.com/user/repo.git", None, "dir/", "target/");
    SingleFileAccepted("https://github.com/user/repo.git", None, "../config.yaml", "config/settings.yaml");
    SingleFileAccepted("https://github.com/user/repo.git", None, "templates/", "project-templates/");
  }

  /** test_version_patterns: branch names, tags, commit ids and branch names with `/`. */
  lemma VersionPatternsAccepted()
    ensures Validate(SingleFileDocument("https://github.com/user/repo.git", Some("main"), "file.py", "dest/file.py")).Success?
    ensures Validate(SingleFileDocument("https://github.com/user/repo.git", Some("develop"), "file.py", "dest/file.py")).Success?
    ensures Validate(SingleFileDocument("https://github.com/user/repo.git", Some("v1.0.0"), "file.py", "dest/file.py")).Success?
    ensures Validate(SingleFileDocument("https://github.com/user/repo.git", Some("abc123def456"), "file.py", "dest/file.py")).Success?
    ensures Validate(SingleFileDocument("https://github.com/user/repo.git", Some("feature/new-feature"), "file.py", "dest/file.py")).Success?
  {
    SingleFileAccepted("https://github.com/user/repo.git", Some("main"), "file.py", "dest/file.py");
    SingleFileAccepted("https://github.com/user/repo.git", Some("develop"), "file.py", "dest/file.py");
    SingleFileAccepted("https://github.com/user/repo.git", Some("v1.0.0"), "file.py", "dest/file.py");
    SingleFileAccepted("https://github.com/user/repo.git", Some("abc123def456"), "file.py", "dest/file.py");
    SingleFileAccepted("https://github.com/user/repo.git", Some("feature/new-feature"), "file.py", "dest/file.py");
  }
}
