/**
 * The typed configuration the rest of the tool works from: remotes and the
 * file entries each remote owns, read off a document the validator has
 * accepted. `Load` is validation followed by this reading, so a caller
 * receives either a configuration whose cross-references hold or the
 * validator's error, never a partly valid configuration.
 */
module Config {
  import opened Wrappers
  import opened Json
  import opened Schema

  datatype RemoteSpec = RemoteSpec(name: string, url: string, basePath: Option<string>, version: Option<string>)

  datatype FileEntry = FileEntry(source: string, destination: string, hash: Option<string>, ignoreChanges: bool)

  /** The entries listed under one key of `files`, in document order. */
  datatype FileGroup = FileGroup(remote: string, entries: seq<FileEntry>)

  datatype Configuration = Configuration(remotes: seq<RemoteSpec>, files: seq<FileGroup>)

  function RemoteNames(c: Configuration): set<string> {
    set i | 0 <= i < |c.remotes| :: c.remotes[i].name
  }

  /** Every file entry of the configuration, in document order. */
  function AllEntries(groups: seq<FileGroup>): seq<FileEntry>
    decreases |groups|
  {
    if groups == [] then [] else groups[0].entries + AllEntries(groups[1..])
  }

  predicate UrlsNonEmpty(c: Configuration) {
    forall i :: 0 <= i < |c.remotes| ==> c.remotes[i].url != []
  }

  /** The invariants a validated configuration carries. */
  predicate Consistent(c: Configuration) {
    && UrlsNonEmpty(c)
    && (forall i, j :: 0 <= i < j < |c.remotes| ==> c.remotes[i].name != c.remotes[j].name)
    && (forall i, j :: 0 <= i < j < |c.files| ==> c.files[i].remote != c.files[j].remote)
    && (forall g :: 0 <= g < |c.files| ==> c.files[g].remote in RemoteNames(c))
    && (var es := AllEntries(c.files);
        forall i, j :: 0 <= i < j < |es| ==> es[i].destination != es[j].destination)
  }

  // ---------------------------------------------------------------------
  // Reading a well-shaped document.
  // ---------------------------------------------------------------------

  function OptionalText(o: Option<Value>): Option<string>
    requires o.None? || o.value.Str?
  {
    if o.None? then None else Some(o.value.s)
  }

  function ToRemote(m: Member): RemoteSpec
    requires RemoteShaped(m.val)
  {
    var ms := m.val.members;
    RemoteSpec(m.key, Lookup(ms, "url").value.s, OptionalText(Lookup(ms, "base_path")), OptionalText(Lookup(ms, "version")))
  }

  /** An absent `ignore_changes` reads as false. */
  function ToEntry(v: Value): FileEntry
    requires EntryShaped(v)
  {
    var ms := v.members;
    var ignore := Lookup(ms, "ignore_changes");
    FileEntry(Lookup(ms, "source").value.s, DestinationOf(v), OptionalText(Lookup(ms, "hash")), ignore.Some? && ignore.value.b)
  }

  function ToEntries(items: seq<Value>): (es: seq<FileEntry>)
    requires EntriesShaped(items)
    ensures |es| == |items|
  {
    seq(|items|, i requires 0 <= i < |items| => ToEntry(items[i]))
  }

  function ToRemotes(ms: seq<Member>): (rs: seq<RemoteSpec>)
    requires RemotesShaped(ms)
    ensures |rs| == |ms|
  {
    seq(|ms|, i requires 0 <= i < |ms| => ToRemote(ms[i]))
  }

  function ToGroups(groups: seq<Member>): (gs: seq<FileGroup>)
    requires GroupsShaped(groups)
    ensures |gs| == |groups|
  {
    seq(|groups|, i requires 0 <= i < |groups| => FileGroup(groups[i].key, ToEntries(groups[i].val.items)))
  }

  function FromDocument(doc: Value): Configuration
    requires WellShaped(doc)
  {
    Configuration(ToRemotes(RemoteMembers(doc)), ToGroups(FileGroups(doc)))
  }

  /** The typed entries list the same destinations, in the same order, as the document. */
  lemma {:induction false} DestinationsCarried(groups: seq<Member>)
    requires GroupsShaped(groups)
    decreases |groups|
    ensures |AllEntries(ToGroups(groups))| == |Destinations(groups)|
    ensures forall k :: 0 <= k < |Destinations(groups)| ==>
              AllEntries(ToGroups(groups))[k].destination == Destinations(groups)[k]
  {
    if groups != [] {
      var t := groups[1..];
      DestinationsCarried(t);
      assert ToGroups(groups) == [FileGroup(groups[0].key, ToEntries(groups[0].val.items))] + ToGroups(t);
      assert ToGroups(groups)[1..] == ToGroups(t);
    }
  }

  lemma RemoteNamesCarried(doc: Value)
    requires WellShaped(doc)
    ensures RemoteNames(FromDocument(doc)) == Keys(RemoteMembers(doc))
  {
    var ms := RemoteMembers(doc);
    var c := FromDocument(doc);
    forall k | k in Keys(ms) ensures k in RemoteNames(c) {
      var i :| 0 <= i < |ms| && ms[i].key == k;
      assert c.remotes[i].name == k;
    }
  }

  /** The `remotes` and `files` mappings of a tree built from dicts have distinct keys. */
  lemma SectionsKeysDistinct(doc: Value)
    requires HasSections(doc) && AllKeysDistinct(doc)
    ensures KeysDistinct(RemoteMembers(doc)) && KeysDistinct(FileGroups(doc))
  {
    var i :| 0 <= i < |doc.members| && doc.members[i] == Member("remotes", Lookup(doc.members, "remotes").value);
    var j :| 0 <= j < |doc.members| && doc.members[j] == Member("files", Lookup(doc.members, "files").value);
    assert AllKeysDistinct(doc.members[i].val) && AllKeysDistinct(doc.members[j].val);
  }

  /**
   * A document the validator accepts, built from dicts as every document the
   * loader produces is, reads as a configuration whose invariants hold.
   */
  lemma FromDocumentConsistent(doc: Value)
    requires Valid(doc) && AllKeysDistinct(doc)
    ensures Consistent(FromDocument(doc))
  {
    var c := FromDocument(doc);
    RemoteNamesCarried(doc);
    DestinationsCarried(FileGroups(doc));
    SectionsKeysDistinct(doc);
    assert forall g :: 0 <= g < |c.files| ==> c.files[g].remote == FileGroups(doc)[g].key;
    assert forall i :: 0 <= i < |c.remotes| ==> c.remotes[i].name == RemoteMembers(doc)[i].key;
  }

  /**
   * Validation followed by reading: the document's own configuration, or the
   * validator's own error.
   */
  function Load(doc: Value): (r: Result<Configuration, ValidationError>)
    ensures r.Success? <==> Valid(doc)
    ensures r.Success? ==> WellShaped(doc) && r.value == FromDocument(doc)
    ensures r.Success? && AllKeysDistinct(doc) ==> Consistent(r.value)
    ensures r.Failure? ==> Validate(doc) == Failure(r.error)
  {
    ValidateAcceptsExactlyValid(doc);
    match Validate(doc)
    case Failure(e) => Failure(e)
    case Success(_) =>
      assert AllKeysDistinct(doc) ==> Consistent(FromDocument(doc)) by {
        if AllKeysDistinct(doc) { FromDocumentConsistent(doc); }
      }
      Success(FromDocument(doc))
  }

  // ---------------------------------------------------------------------
  // Writing a configuration back as a document.
  // ---------------------------------------------------------------------

  function OptionalMember(key: string, o: Option<string>): seq<Member> {
    if o.Some? then [Member(key, Str(o.value))] else []
  }

  function RemoteToMember(r: RemoteSpec): Member {
    Member(r.name, Obj([Member("url", Str(r.url))] + OptionalMember("base_path", r.basePath) + OptionalMember("version", r.version)))
  }

  /** `ignore_changes` is written only when it is true. */
  function EntryToValue(e: FileEntry): Value {
    Obj([Member("source", Str(e.source)), Member("destination", Str(e.destination))]
        + OptionalMember("hash", e.hash)
        + (if e.ignoreChanges then [Member("ignore_changes", Bool(true))] else []))
  }

  function GroupToMember(g: FileGroup): Member {
    Member(g.remote, Arr(seq(|g.entries|, i requires 0 <= i < |g.entries| => EntryToValue(g.entries[i]))))
  }

  function ToDocument(c: Configuration): Value {
    Obj([Member("remotes", Obj(seq(|c.remotes|, i requires 0 <= i < |c.remotes| => RemoteToMember(c.remotes[i])))),
         Member("files", Obj(seq(|c.files|, i requires 0 <= i < |c.files| => GroupToMember(c.files[i]))))])
  }

  lemma OptionalMemberLookup(key: string, o: Option<string>, rest: seq<Member>)
    requires key !in Keys(rest)
    ensures Lookup(OptionalMember(key, o) + rest, key) == if o.Some? then Some(Str(o.value)) else None
  {
    if o.None? {
      assert OptionalMember(key, o) + rest == rest;
    }
  }

  /** Writing a remote and reading it back gives the same remote. */
  lemma RemoteRoundTrip(r: RemoteSpec)
    requires r.url != []
    ensures RemoteShaped(RemoteToMember(r).val) && ToRemote(RemoteToMember(r)) == r
  {
    var head := [Member("url", Str(r.url))];
    var ob := OptionalMember("base_path", r.basePath);
    var ov := OptionalMember("version", r.version);
    var ms := head + ob + ov;
    assert RemoteToMember(r).val.members == ms;
    assert "base_path" !in Keys(head) && "version" !in Keys(head) && "version" !in Keys(ob);
    assert "base_path" !in Keys(ov);
    LookupSkips(head, ob + ov, "base_path");
    LookupSkips(head, ob + ov, "version");
    assert head + ob + ov == head + (ob + ov);
    OptionalMemberLookup("base_path", r.basePath, ov);
    LookupSkips(ob, ov, "version");
    OptionalMemberLookup("version", r.version, []);
    assert ov + [] == ov;
  }

  /** Writing a file entry and reading it back gives the same entry. */
  lemma EntryRoundTrip(e: FileEntry)
    ensures EntryShaped(EntryToValue(e)) && ToEntry(EntryToValue(e)) == e
  {
    var head := [Member("source", Str(e.source)), Member("destination", Str(e.destination))];
    var oh := OptionalMember("hash", e.hash);
    var oi: seq<Member> := if e.ignoreChanges then [Member("ignore_changes", Bool(true))] else [];
    var ms := head + oh + oi;
    assert EntryToValue(e).members == ms;
    assert head + oh + oi == head + (oh + oi);
    assert "hash" !in Keys(head) && "ignore_changes" !in Keys(head) && "ignore_changes" !in Keys(oh);
    assert "hash" !in Keys(oi);
    LookupSkips(head, oh + oi, "hash");
    LookupSkips(head, oh + oi, "ignore_changes");
    OptionalMemberLookup("hash", e.hash, oi);
    LookupSkips(oh, oi, "ignore_changes");
  }

  /** A configuration with non-empty urls, written out and read back, is unchanged. */
  lemma RoundTrip(c: Configuration)
    requires UrlsNonEmpty(c)
    ensures WellShaped(ToDocument(c)) && FromDocument(ToDocument(c)) == c
  {
    var doc := ToDocument(c);
    assert Lookup(doc.members, "remotes") == Some(doc.members[0].val);
    assert Lookup(doc.members, "files") == Some(doc.members[1].val);
    var rs := RemoteMembers(doc);
    var gs := FileGroups(doc);
    forall i | 0 <= i < |c.remotes| ensures RemoteShaped(rs[i].val) && ToRemote(rs[i]) == c.remotes[i] {
      RemoteRoundTrip(c.remotes[i]);
    }
    forall g, i | 0 <= g < |c.files| && 0 <= i < |c.files[g].entries|
      ensures EntryShaped(gs[g].val.items[i]) && ToEntry(gs[g].val.items[i]) == c.files[g].entries[i]
    {
      EntryRoundTrip(c.files[g].entries[i]);
    }
    assert GroupsShaped(gs);
    forall g | 0 <= g < |c.files| ensures ToGroups(gs)[g] == c.files[g] {
      assert ToEntries(gs[g].val.items) == c.files[g].entries;
    }
  }

  /** The validator accepts the written form of every consistent configuration, unchanged. */
  lemma ToDocumentAccepted(c: Configuration)
    requires Consistent(c)
    ensures Validate(ToDocument(c)) == Success(ToDocument(c))
    ensures AllKeysDistinct(ToDocument(c))
  {
    ToDocumentWritesDicts(c);
    var doc := ToDocument(c);
    RoundTrip(c);
    RemoteNamesCarried(doc);
    DestinationsCarried(FileGroups(doc));
    assert ToGroups(FileGroups(doc)) == c.files;
    assert RefsDeclared(doc) by {
      forall g | 0 <= g < |FileGroups(doc)| ensures FileGroups(doc)[g].key in Keys(RemoteMembers(doc)) {
        assert FileGroups(doc)[g].key == c.files[g].remote;
      }
    }
    ValidateAcceptsExactlyValid(doc);
  }

  lemma RemoteWrittenAsDict(r: RemoteSpec)
    ensures AllKeysDistinct(RemoteToMember(r).val)
  {
    var ms := RemoteToMember(r).val.members;
    assert forall i :: 0 <= i < |ms| ==> ms[i].val.Str?;
    assert forall i :: 0 <= i < |ms| ==> ms[i].key in {"url", "base_path", "version"};
    assert ms[0].key == "url";
    assert |ms| >= 2 && r.basePath.Some? ==> ms[1].key == "base_path";
    assert |ms| == 3 ==> ms[2].key == "version";
    assert |ms| == 2 && r.basePath.None? ==> ms[1].key == "version";
  }

  lemma EntryWrittenAsDict(e: FileEntry)
    ensures AllKeysDistinct(EntryToValue(e))
  {
    var ms := EntryToValue(e).members;
    assert forall i :: 0 <= i < |ms| ==> ms[i].val.Str? || ms[i].val.Bool?;
    assert ms[0].key == "source" && ms[1].key == "destination";
    assert |ms| >= 3 && e.hash.Some? ==> ms[2].key == "hash";
    assert |ms| == 4 ==> ms[3].key == "ignore_changes";
    assert |ms| == 3 && e.hash.None? ==> ms[2].key == "ignore_changes";
  }

  /** The written form of a consistent configuration is a tree of dicts: no mapping in it repeats a key. */
  lemma ToDocumentWritesDicts(c: Configuration)
    requires Consistent(c)
    ensures AllKeysDistinct(ToDocument(c))
  {
    var doc := ToDocument(c);
    var rv := doc.members[0].val;
    var fv := doc.members[1].val;
    forall i | 0 <= i < |c.remotes| ensures AllKeysDistinct(rv.members[i].val) {
      RemoteWrittenAsDict(c.remotes[i]);
    }
    assert AllKeysDistinct(rv);
    forall g | 0 <= g < |c.files| ensures AllKeysDistinct(fv.members[g].val) {
      var items := fv.members[g].val.items;
      forall i | 0 <= i < |items| ensures AllKeysDistinct(items[i]) {
        EntryWrittenAsDict(c.files[g].entries[i]);
      }
    }
    assert AllKeysDistinct(fv);
  }

  /** Reading a well-shaped document, writing it and reading again gives the first reading: what reading keeps, writing keeps. */
  lemma RereadStable(doc: Value)
    requires WellShaped(doc)
    ensures WellShaped(ToDocument(FromDocument(doc)))
    ensures FromDocument(ToDocument(FromDocument(doc))) == FromDocument(doc)
  {
    var c := FromDocument(doc);
    assert forall i :: 0 <= i < |c.remotes| ==> c.remotes[i] == ToRemote(RemoteMembers(doc)[i]);
    RoundTrip(c);
  }
}
