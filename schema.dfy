/**
 * The configuration validator `validate_config_data`: it takes the untyped
 * tree of a `.gitcrossref` document and hands it back unchanged, or raises
 * `ValidationError`. Three layers of rules are applied in order, and the
 * first error found is reported:
 *   1. shape: required members present with the right types;
 *   2. references: every key of `files` names a remote declared in `remotes`;
 *   3. uniqueness: no two file entries, under any remotes, share a destination.
 *
 * Each layer is given twice: as a declarative predicate (WellShaped,
 * RefsDeclared, DestinationsUnique) and as the scan that reports the first
 * offending member (CheckShape, CheckRefs, FirstDuplicate). The lemmas prove
 * that the scans accept exactly what the predicates describe and that every
 * error they report names a real defect.
 */
module Schema {
  import opened Wrappers
  import opened Json

  /** What is wrong with the value found at an error's path. */
  datatype Problem =
    | MissingField(field: string)
    | NotObject
    | NotArray
    | NotString
    | NotBoolean
    | EmptyString

  datatype ValidationError =
    | SchemaViolation(path: Path, problem: Problem)
    | UndeclaredRemote(remote: string)
    | DuplicateDestination(destination: string)

  /** The outcome of one check: nothing found, or the first error found. */
  datatype Outcome = Pass | Fail(error: ValidationError)

  // ---------------------------------------------------------------------
  // Layer 1, declaratively: the shape of a document.
  // ---------------------------------------------------------------------

  predicate StringField(ms: seq<Member>, key: string) {
    var o := Lookup(ms, key); o.Some? && o.value.Str?
  }

  predicate NonEmptyStringField(ms: seq<Member>, key: string) {
    var o := Lookup(ms, key); o.Some? && o.value.Str? && o.value.s != []
  }

  predicate OptionalString(ms: seq<Member>, key: string) {
    var o := Lookup(ms, key); o.None? || o.value.Str?
  }

  predicate OptionalBool(ms: seq<Member>, key: string) {
    var o := Lookup(ms, key); o.None? || o.value.Bool?
  }

  predicate ObjectField(ms: seq<Member>, key: string) {
    var o := Lookup(ms, key); o.Some? && o.value.Obj?
  }

  /** `{url, base_path?, version?}` with a non-empty url. */
  predicate RemoteShaped(v: Value) {
    && v.Obj?
    && NonEmptyStringField(v.members, "url")
    && OptionalString(v.members, "base_path")
    && OptionalString(v.members, "version")
  }

  /** `{source, destination, hash?, ignore_changes?}`. */
  predicate EntryShaped(v: Value) {
    && v.Obj?
    && StringField(v.members, "source")
    && StringField(v.members, "destination")
    && OptionalString(v.members, "hash")
    && OptionalBool(v.members, "ignore_changes")
  }

  predicate EntriesShaped(items: seq<Value>) {
    forall i :: 0 <= i < |items| ==> EntryShaped(items[i])
  }

  /** The list of entries a remote owns. */
  predicate GroupShaped(v: Value) {
    v.Arr? && EntriesShaped(v.items)
  }

  predicate RemotesShaped(ms: seq<Member>) {
    forall i :: 0 <= i < |ms| ==> RemoteShaped(ms[i].val)
  }

  predicate GroupsShaped(ms: seq<Member>) {
    forall i :: 0 <= i < |ms| ==> GroupShaped(ms[i].val)
  }

  predicate HasSections(doc: Value) {
    doc.Obj? && ObjectField(doc.members, "remotes") && ObjectField(doc.members, "files")
  }

  /** The members of `remotes`: remote name to remote declaration. */
  function RemoteMembers(doc: Value): seq<Member>
    requires HasSections(doc)
  {
    Lookup(doc.members, "remotes").value.members
  }

  /** The members of `files`: remote name to the list of entries it owns. */
  function FileGroups(doc: Value): seq<Member>
    requires HasSections(doc)
  {
    Lookup(doc.members, "files").value.members
  }

  predicate WellShaped(doc: Value) {
    HasSections(doc) && RemotesShaped(RemoteMembers(doc)) && GroupsShaped(FileGroups(doc))
  }

  // ---------------------------------------------------------------------
  // Layers 2 and 3, declaratively.
  // ---------------------------------------------------------------------

  predicate RefsDeclared(doc: Value)
    requires WellShaped(doc)
  {
    forall i :: 0 <= i < |FileGroups(doc)| ==> FileGroups(doc)[i].key in Keys(RemoteMembers(doc))
  }

  function DestinationOf(entry: Value): string
    requires EntryShaped(entry)
  {
    Lookup(entry.members, "destination").value.s
  }

  function EntryDestinations(items: seq<Value>): (ds: seq<string>)
    requires EntriesShaped(items)
    ensures |ds| == |items|
  {
    seq(|items|, i requires 0 <= i < |items| => DestinationOf(items[i]))
  }

  /** Every destination of the document, in document order. */
  function Destinations(groups: seq<Member>): seq<string>
    requires GroupsShaped(groups)
    decreases |groups|
  {
    if groups == [] then []
    else EntryDestinations(groups[0].val.items) + Destinations(groups[1..])
  }

  predicate Distinct(ds: seq<string>) {
    forall i, j :: 0 <= i < j < |ds| ==> ds[i] != ds[j]
  }

  predicate DestinationsUnique(doc: Value)
    requires WellShaped(doc)
  {
    Distinct(Destinations(FileGroups(doc)))
  }

  /** A document the validator accepts. */
  predicate Valid(doc: Value) {
    WellShaped(doc) && RefsDeclared(doc) && DestinationsUnique(doc)
  }

  // ---------------------------------------------------------------------
  // Layer 1 as a scan that reports the first violation, with its path
  // relative to the value being checked.
  // ---------------------------------------------------------------------

  function Violation(problem: Problem): Outcome {
    Fail(SchemaViolation([], problem))
  }

  function FieldViolation(key: string, problem: Problem): Outcome {
    Fail(SchemaViolation([Field(key)], problem))
  }

  /** The first failure of `first` and `next`. */
  function Then(first: Outcome, next: Outcome): Outcome {
    if first.Fail? then first else next
  }

  /** Moves a violation found inside a child one step down the path. */
  function Under(s: Step, o: Outcome): Outcome {
    if o.Fail? && o.error.SchemaViolation? then Fail(SchemaViolation([s] + o.error.path, o.error.problem))
    else o
  }

  function CheckString(ms: seq<Member>, key: string, nonEmpty: bool): Outcome {
    match Lookup(ms, key)
    case None => Violation(MissingField(key))
    case Some(v) =>
      if !v.Str? then FieldViolation(key, NotString)
      else if nonEmpty && v.s == [] then FieldViolation(key, EmptyString)
      else Pass
  }

  function CheckOptionalString(ms: seq<Member>, key: string): Outcome {
    match Lookup(ms, key)
    case None => Pass
    case Some(v) => if v.Str? then Pass else FieldViolation(key, NotString)
  }

  function CheckOptionalBool(ms: seq<Member>, key: string): Outcome {
    match Lookup(ms, key)
    case None => Pass
    case Some(v) => if v.Bool? then Pass else FieldViolation(key, NotBoolean)
  }

  function CheckRemote(v: Value): Outcome {
    if !v.Obj? then Violation(NotObject)
    else
      Then(CheckString(v.members, "url", true),
      Then(CheckOptionalString(v.members, "base_path"),
           CheckOptionalString(v.members, "version")))
  }

  function CheckEntry(v: Value): Outcome {
    if !v.Obj? then Violation(NotObject)
    else
      Then(CheckString(v.members, "source", false),
      Then(CheckString(v.members, "destination", false),
      Then(CheckOptionalString(v.members, "hash"),
           CheckOptionalBool(v.members, "ignore_changes"))))
  }

  /** Checks the entries of a list from position `from` on. */
  function CheckEntries(items: seq<Value>, from: nat): Outcome
    requires from <= |items|
    decreases |items| - from
  {
    if from == |items| then Pass
    else Then(Under(Index(from), CheckEntry(items[from])), CheckEntries(items, from + 1))
  }

  function CheckGroup(v: Value): Outcome {
    if !v.Arr? then Violation(NotArray) else CheckEntries(v.items, 0)
  }

  /** Checks the members of `remotes` from position `from` on. */
  function CheckRemotes(ms: seq<Member>, from: nat): Outcome
    requires from <= |ms|
    decreases |ms| - from
  {
    if from == |ms| then Pass
    else Then(Under(Field(ms[from].key), CheckRemote(ms[from].val)), CheckRemotes(ms, from + 1))
  }

  /** Checks the members of `files` from position `from` on. */
  function CheckGroups(ms: seq<Member>, from: nat): Outcome
    requires from <= |ms|
    decreases |ms| - from
  {
    if from == |ms| then Pass
    else Then(Under(Field(ms[from].key), CheckGroup(ms[from].val)), CheckGroups(ms, from + 1))
  }

  function CheckShape(doc: Value): Outcome {
    if !doc.Obj? then Violation(NotObject)
    else match Lookup(doc.members, "remotes")
      case None => Violation(MissingField("remotes"))
      case Some(remotes) =>
        if !remotes.Obj? then FieldViolation("remotes", NotObject)
        else match Lookup(doc.members, "files")
          case None => Violation(MissingField("files"))
          case Some(files) =>
            if !files.Obj? then FieldViolation("files", NotObject)
            else Then(Under(Field("remotes"), CheckRemotes(remotes.members, 0)),
                      Under(Field("files"), CheckGroups(files.members, 0)))
  }

  // ---------------------------------------------------------------------
  // Layers 2 and 3 as scans.
  // ---------------------------------------------------------------------

  /** Reports the first key of `groups`, from position `from` on, that is not declared. */
  function CheckRefs(groups: seq<Member>, declared: set<string>, from: nat): (o: Outcome)
    requires from <= |groups|
    decreases |groups| - from
    ensures o.Pass? <==> forall i :: from <= i < |groups| ==> groups[i].key in declared
    ensures o.Fail? ==> o.error.UndeclaredRemote? && o.error.remote !in declared
                        && exists i :: from <= i < |groups| && groups[i].key == o.error.remote
  {
    if from == |groups| then Pass
    else if groups[from].key !in declared then Fail(UndeclaredRemote(groups[from].key))
    else CheckRefs(groups, declared, from + 1)
  }

  /** Scans `ds` keeping the set of destinations seen so far; reports the first repeat. */
  function FirstDuplicate(ds: seq<string>, seen: set<string>): Option<string>
    decreases |ds|
  {
    if ds == [] then None
    else if ds[0] in seen then Some(ds[0])
    else FirstDuplicate(ds[1..], seen + {ds[0]})
  }

  /**
   * `validate_config_data`: the document itself when it passes all three
   * layers, otherwise the first error of the first failing layer.
   */
  function Validate(doc: Value): (r: Result<Value, ValidationError>)
    ensures r.Success? ==> r.value == doc
  {
    match CheckShape(doc)
    case Fail(e) => Failure(e)
    case Pass =>
      CheckShapeCorrect(doc);
      match CheckRefs(FileGroups(doc), Keys(RemoteMembers(doc)), 0)
      case Fail(e) => Failure(e)
      case Pass =>
        match FirstDuplicate(Destinations(FileGroups(doc)), {})
        case Some(d) => Failure(DuplicateDestination(d))
        case None => Success(doc)
  }

  // ---------------------------------------------------------------------
  // The scans agree with the rules.
  // ---------------------------------------------------------------------

  ghost predicate HasProblem(w: Value, problem: Problem) {
    match problem
    case MissingField(f) => w.Obj? && f !in Keys(w.members)
    case NotObject => !w.Obj?
    case NotArray => !w.Arr?
    case NotString => !w.Str?
    case NotBoolean => !w.Bool?
    case EmptyString => w == Str([])
  }

  /** A failed check names a path in `v` that leads to a value with the stated problem. */
  ghost predicate Genuine(v: Value, o: Outcome) {
    o.Fail? ==> o.error.SchemaViolation? && exists w :: Reaches(v, o.error.path, w) && HasProblem(w, o.error.problem)
  }

  lemma LookupReaches(ms: seq<Member>, key: string)
    requires Lookup(ms, key).Some?
    ensures Reaches(Obj(ms), [Field(key)], Lookup(ms, key).value)
  {
    var i :| 0 <= i < |ms| && ms[i] == Member(key, Lookup(ms, key).value);
    assert Reaches(ms[i].val, [Field(key)][1..], Lookup(ms, key).value);
  }

  lemma ThenGenuine(v: Value, a: Outcome, b: Outcome)
    requires Genuine(v, a) && Genuine(v, b)
    ensures Genuine(v, Then(a, b))
  {
  }

  lemma UnderMemberGenuine(ms: seq<Member>, i: nat, o: Outcome)
    requires i < |ms| && Genuine(ms[i].val, o)
    ensures Genuine(Obj(ms), Under(Field(ms[i].key), o))
  {
    if o.Fail? {
      var w :| Reaches(ms[i].val, o.error.path, w) && HasProblem(w, o.error.problem);
      ReachesThroughMember(ms, i, o.error.path, w);
    }
  }

  lemma UnderItemGenuine(items: seq<Value>, n: nat, o: Outcome)
    requires n < |items| && Genuine(items[n], o)
    ensures Genuine(Arr(items), Under(Index(n), o))
  {
    if o.Fail? {
      var w :| Reaches(items[n], o.error.path, w) && HasProblem(w, o.error.problem);
      ReachesThroughItem(items, n, o.error.path, w);
    }
  }

  lemma CheckStringGenuine(ms: seq<Member>, key: string, nonEmpty: bool)
    ensures Genuine(Obj(ms), CheckString(ms, key, nonEmpty))
  {
    if Lookup(ms, key).Some? {
      LookupReaches(ms, key);
    } else {
      assert Reaches(Obj(ms), [], Obj(ms));
    }
  }

  lemma CheckOptionalGenuine(ms: seq<Member>, key: string)
    ensures Genuine(Obj(ms), CheckOptionalString(ms, key))
    ensures Genuine(Obj(ms), CheckOptionalBool(ms, key))
  {
    if Lookup(ms, key).Some? {
      LookupReaches(ms, key);
    }
  }

  /** A remote declaration passes its check exactly when it is well shaped, and a failure is genuine. */
  lemma CheckRemoteCorrect(v: Value)
    ensures CheckRemote(v).Pass? <==> RemoteShaped(v)
    ensures Genuine(v, CheckRemote(v))
  {
    if v.Obj? {
      var ms := v.members;
      CheckStringGenuine(ms, "url", true);
      CheckOptionalGenuine(ms, "base_path");
      CheckOptionalGenuine(ms, "version");
    } else {
      assert Reaches(v, [], v);
    }
  }

  /** A file entry passes its check exactly when it is well shaped, and a failure is genuine. */
  lemma CheckEntryCorrect(v: Value)
    ensures CheckEntry(v).Pass? <==> EntryShaped(v)
    ensures Genuine(v, CheckEntry(v))
  {
    if v.Obj? {
      var ms := v.members;
      CheckStringGenuine(ms, "source", false);
      CheckStringGenuine(ms, "destination", false);
      CheckOptionalGenuine(ms, "hash");
      CheckOptionalGenuine(ms, "ignore_changes");
    } else {
      assert Reaches(v, [], v);
    }
  }

  lemma {:induction false} CheckEntriesCorrect(items: seq<Value>, from: nat)
    requires from <= |items|
    decreases |items| - from
    ensures CheckEntries(items, from).Pass? <==> forall i :: from <= i < |items| ==> EntryShaped(items[i])
    ensures Genuine(Arr(items), CheckEntries(items, from))
  {
    if from < |items| {
      CheckEntryCorrect(items[from]);
      UnderItemGenuine(items, from, CheckEntry(items[from]));
      CheckEntriesCorrect(items, from + 1);
      ThenGenuine(Arr(items), Under(Index(from), CheckEntry(items[from])), CheckEntries(items, from + 1));
    }
  }

  lemma CheckGroupCorrect(v: Value)
    ensures CheckGroup(v).Pass? <==> GroupShaped(v)
    ensures Genuine(v, CheckGroup(v))
  {
    if v.Arr? {
      CheckEntriesCorrect(v.items, 0);
    } else {
      assert Reaches(v, [], v);
    }
  }

  lemma {:induction false} CheckRemotesCorrect(ms: seq<Member>, from: nat)
    requires from <= |ms|
    decreases |ms| - from
    ensures CheckRemotes(ms, from).Pass? <==> forall i :: from <= i < |ms| ==> RemoteShaped(ms[i].val)
    ensures Genuine(Obj(ms), CheckRemotes(ms, from))
  {
    if from < |ms| {
      CheckRemoteCorrect(ms[from].val);
      UnderMemberGenuine(ms, from, CheckRemote(ms[from].val));
      CheckRemotesCorrect(ms, from + 1);
      ThenGenuine(Obj(ms), Under(Field(ms[from].key), CheckRemote(ms[from].val)), CheckRemotes(ms, from + 1));
    }
  }

  lemma {:induction false} CheckGroupsCorrect(ms: seq<Member>, from: nat)
    requires from <= |ms|
    decreases |ms| - from
    ensures CheckGroups(ms, from).Pass? <==> forall i :: from <= i < |ms| ==> GroupShaped(ms[i].val)
    ensures Genuine(Obj(ms), CheckGroups(ms, from))
  {
    if from < |ms| {
      CheckGroupCorrect(ms[from].val);
      UnderMemberGenuine(ms, from, CheckGroup(ms[from].val));
      CheckGroupsCorrect(ms, from + 1);
      ThenGenuine(Obj(ms), Under(Field(ms[from].key), CheckGroup(ms[from].val)), CheckGroups(ms, from + 1));
    }
  }

  /** Layer 1: the shape scan passes exactly on well-shaped documents, and its errors are genuine. */
  lemma CheckShapeCorrect(doc: Value)
    ensures CheckShape(doc).Pass? <==> WellShaped(doc)
    ensures Genuine(doc, CheckShape(doc))
  {
    if !doc.Obj? {
      assert Reaches(doc, [], doc);
    } else if Lookup(doc.members, "remotes").None? {
      assert Reaches(doc, [], doc);
    } else if !Lookup(doc.members, "remotes").value.Obj? {
      LookupReaches(doc.members, "remotes");
    } else if Lookup(doc.members, "files").None? {
      assert Reaches(doc, [], doc);
    } else if !Lookup(doc.members, "files").value.Obj? {
      LookupReaches(doc.members, "files");
    } else {
      var remotes := Lookup(doc.members, "remotes").value;
      var files := Lookup(doc.members, "files").value;
      CheckRemotesCorrect(remotes.members, 0);
      CheckGroupsCorrect(files.members, 0);
      var a := Under(Field("remotes"), CheckRemotes(remotes.members, 0));
      var b := Under(Field("files"), CheckGroups(files.members, 0));
      UnderSectionGenuine(doc, "remotes", CheckRemotes(remotes.members, 0));
      UnderSectionGenuine(doc, "files", CheckGroups(files.members, 0));
      ThenGenuine(doc, a, b);
    }
  }

  lemma UnderSectionGenuine(doc: Value, key: string, o: Outcome)
    requires doc.Obj? && Lookup(doc.members, key).Some?
    requires Genuine(Lookup(doc.members, key).value, o)
    ensures Genuine(doc, Under(Field(key), o))
  {
    var i :| 0 <= i < |doc.members| && doc.members[i] == Member(key, Lookup(doc.members, key).value);
    UnderMemberGenuine(doc.members, i, o);
  }

  /** Layer 3: the scan reports nothing exactly when `ds` has no repeat and avoids `seen`; a report is a real repeat. */
  lemma {:induction false} FirstDuplicateCorrect(ds: seq<string>, seen: set<string>)
    decreases |ds|
    ensures FirstDuplicate(ds, seen).None? <==> Distinct(ds) && forall i :: 0 <= i < |ds| ==> ds[i] !in seen
    ensures FirstDuplicate(ds, seen).Some? ==>
              exists j :: 0 <= j < |ds| && ds[j] == FirstDuplicate(ds, seen).value
                          && (ds[j] in seen || exists i :: 0 <= i < j && ds[i] == ds[j])
  {
    if ds != [] && ds[0] !in seen {
      var tail := ds[1..];
      FirstDuplicateCorrect(tail, seen + {ds[0]});
      assert forall i :: 0 <= i < |tail| ==> tail[i] == ds[i + 1];
      var r := FirstDuplicate(tail, seen + {ds[0]});
      if r.Some? {
        var j :| 0 <= j < |tail| && tail[j] == r.value
                 && (tail[j] in seen + {ds[0]} || exists i :: 0 <= i < j && tail[i] == tail[j]);
        if tail[j] in seen {
        } else if tail[j] == ds[0] {
          assert ds[0] == ds[j + 1];
        } else {
          var i :| 0 <= i < j && tail[i] == tail[j];
          assert ds[i + 1] == ds[j + 1];
        }
      } else {
        forall i, j | 0 <= i < j < |ds| ensures ds[i] != ds[j] {
          if i > 0 {
            assert ds[i] == tail[i - 1] && ds[j] == tail[j - 1];
          } else {
            assert ds[j] == tail[j - 1];
          }
        }
      }
    }
  }

  // ---------------------------------------------------------------------
  // Uniqueness stated on positions in the tree rather than on the list.
  // ---------------------------------------------------------------------

  /** Entry `i` of the list owned by the `g`-th member of `files` exists. */
  predicate IsEntry(groups: seq<Member>, g: int, i: int)
    requires GroupsShaped(groups)
  {
    0 <= g < |groups| && 0 <= i < |groups[g].val.items|
  }

  function DestAt(groups: seq<Member>, g: int, i: int): string
    requires GroupsShaped(groups) && IsEntry(groups, g, i)
  {
    DestinationOf(groups[g].val.items[i])
  }

  /** No two entries at different positions, under the same remote or not, share a destination. */
  ghost predicate NoSharedDestination(groups: seq<Member>)
    requires GroupsShaped(groups)
  {
    forall g1, i1, g2, i2 ::
      IsEntry(groups, g1, i1) && IsEntry(groups, g2, i2) && (g1 != g2 || i1 != i2)
      ==> DestAt(groups, g1, i1) != DestAt(groups, g2, i2)
  }

  /** Entry `i` of the `g`-th list of `groups[1..]` is entry `i` of the `(g + 1)`-th list of `groups`. */
  lemma DestAtTail(groups: seq<Member>, g: int, i: int)
    requires GroupsShaped(groups) && groups != [] && IsEntry(groups[1..], g, i)
    ensures IsEntry(groups, g + 1, i) && DestAt(groups[1..], g, i) == DestAt(groups, g + 1, i)
  {
    assert groups[1..][g] == groups[g + 1];
  }

  /** Every position of the destination list comes from an entry of the tree. */
  lemma {:induction false} Located(groups: seq<Member>, k: int) returns (g: int, i: int)
    requires GroupsShaped(groups) && 0 <= k < |Destinations(groups)|
    decreases |groups|
    ensures IsEntry(groups, g, i) && DestAt(groups, g, i) == Destinations(groups)[k]
  {
    var a := EntryDestinations(groups[0].val.items);
    var t := groups[1..];
    assert Destinations(groups) == a + Destinations(t);
    if k < |a| {
      g, i := 0, k;
    } else {
      var g', i' := Located(t, k - |a|);
      DestAtTail(groups, g', i');
      g, i := g' + 1, i';
    }
  }

  /** Every entry of the tree has its destination in the destination list. */
  lemma {:induction false} Listed(groups: seq<Member>, g: int, i: int)
    requires GroupsShaped(groups) && IsEntry(groups, g, i)
    decreases g
    ensures DestAt(groups, g, i) in Destinations(groups)
  {
    var a := EntryDestinations(groups[0].val.items);
    var t := groups[1..];
    assert Destinations(groups) == a + Destinations(t);
    if g == 0 {
      assert a[i] == DestAt(groups, 0, i);
    } else {
      assert t[g - 1] == groups[g];
      Listed(t, g - 1, i);
      DestAtTail(groups, g - 1, i);
    }
  }

  predicate Disjoint(a: seq<string>, b: seq<string>) {
    forall i, j :: 0 <= i < |a| && 0 <= j < |b| ==> a[i] != b[j]
  }

  lemma DistinctConcat(a: seq<string>, b: seq<string>)
    ensures Distinct(a + b) <==> Distinct(a) && Distinct(b) && Disjoint(a, b)
  {
    var c := a + b;
    if Distinct(a) && Distinct(b) && Disjoint(a, b) {
      forall i, j | 0 <= i < j < |c| ensures c[i] != c[j] {
        if j < |a| {
          assert c[i] == a[i] && c[j] == a[j];
        } else if i >= |a| {
          assert c[i] == b[i - |a|] && c[j] == b[j - |a|];
        } else {
          assert c[i] == a[i] && c[j] == b[j - |a|];
        }
      }
    }
    if Distinct(c) {
      forall i, j | 0 <= i < j < |a| ensures a[i] != a[j] {
        assert a[i] == c[i] && a[j] == c[j];
      }
      forall i, j | 0 <= i < j < |b| ensures b[i] != b[j] {
        assert b[i] == c[i + |a|] && b[j] == c[j + |a|];
      }
      forall i, j | 0 <= i < |a| && 0 <= j < |b| ensures a[i] != b[j] {
        assert a[i] == c[i] && b[j] == c[j + |a|];
      }
    }
  }

  lemma NoSharedDestinationTail(groups: seq<Member>)
    requires GroupsShaped(groups) && groups != [] && NoSharedDestination(groups)
    ensures NoSharedDestination(groups[1..])
  {
    var t := groups[1..];
    forall g1, i1, g2, i2 | IsEntry(t, g1, i1) && IsEntry(t, g2, i2) && (g1 != g2 || i1 != i2)
      ensures DestAt(t, g1, i1) != DestAt(t, g2, i2)
    {
      DestAtTail(groups, g1, i1);
      DestAtTail(groups, g2, i2);
    }
  }

  /** The list check and the position rule agree: the destination list repeats nothing exactly when no two entries share a destination. */
  lemma {:induction false} DistinctIffNoSharedDestination(groups: seq<Member>)
    requires GroupsShaped(groups)
    decreases |groups|
    ensures Distinct(Destinations(groups)) <==> NoSharedDestination(groups)
  {
    if groups != [] {
      var t := groups[1..];
      var a := EntryDestinations(groups[0].val.items);
      var b := Destinations(t);
      DistinctIffNoSharedDestination(t);
      DistinctConcat(a, b);
      assert Destinations(groups) == a + b;
      if NoSharedDestination(groups) {
        NoSharedDestinationTail(groups);
        forall i, j | 0 <= i < |a| && 0 <= j < |b| ensures a[i] != b[j] {
          var g, i' := Located(t, j);
          DestAtTail(groups, g, i');
          assert a[i] == DestAt(groups, 0, i);
        }
        forall i, j | 0 <= i < j < |a| ensures a[i] != a[j] {
          assert a[i] == DestAt(groups, 0, i) && a[j] == DestAt(groups, 0, j);
        }
      }
      if Distinct(a + b) {
        forall g1, i1, g2, i2 | IsEntry(groups, g1, i1) && IsEntry(groups, g2, i2) && (g1 != g2 || i1 != i2)
          ensures DestAt(groups, g1, i1) != DestAt(groups, g2, i2)
        {
          SharedDestinationSplit(groups, g1, i1, g2, i2);
        }
      }
    }
  }

  /** The induction step of DistinctIffNoSharedDestination, for one pair of positions. */
  lemma SharedDestinationSplit(groups: seq<Member>, g1: int, i1: int, g2: int, i2: int)
    requires GroupsShaped(groups) && groups != []
    requires Distinct(EntryDestinations(groups[0].val.items))
    requires NoSharedDestination(groups[1..])
    requires Disjoint(EntryDestinations(groups[0].val.items), Destinations(groups[1..]))
    requires IsEntry(groups, g1, i1) && IsEntry(groups, g2, i2) && (g1 != g2 || i1 != i2)
    ensures DestAt(groups, g1, i1) != DestAt(groups, g2, i2)
  {
    var t := groups[1..];
    var a := EntryDestinations(groups[0].val.items);
    var b := Destinations(t);
    if g1 == 0 && g2 == 0 {
      if i1 < i2 { assert a[i1] != a[i2]; } else { assert a[i2] != a[i1]; }
    } else if g1 == 0 || g2 == 0 {
      var iz, go, io := if g1 == 0 then i1 else i2, if g1 == 0 then g2 else g1, if g1 == 0 then i2 else i1;
      assert t[go - 1] == groups[go];
      Listed(t, go - 1, io);
      DestAtTail(groups, go - 1, io);
      var j :| 0 <= j < |b| && b[j] == DestAt(groups, go, io);
      assert a[iz] != b[j];
    } else {
      assert t[g1 - 1] == groups[g1] && t[g2 - 1] == groups[g2];
      DestAtTail(groups, g1 - 1, i1);
      DestAtTail(groups, g2 - 1, i2);
    }
  }

  // ---------------------------------------------------------------------
  // The validator as a whole.
  // ---------------------------------------------------------------------

  /** Success exactly on documents that meet all three layers of rules. */
  lemma ValidateAcceptsExactlyValid(doc: Value)
    ensures Validate(doc).Success? <==> Valid(doc)
  {
    CheckShapeCorrect(doc);
    if WellShaped(doc) {
      FirstDuplicateCorrect(Destinations(FileGroups(doc)), {});
    }
  }

  /**
   * Every error names a real defect, and the layers are tried in order: a
   * reference error implies the shape is right, a duplicate implies both the
   * shape and the references are right.
   */
  lemma ValidateErrorsGenuine(doc: Value)
    ensures Validate(doc).Failure? ==>
              match Validate(doc).error
              case SchemaViolation(p, problem) =>
                !WellShaped(doc) && exists w :: Reaches(doc, p, w) && HasProblem(w, problem)
              case UndeclaredRemote(name) =>
                WellShaped(doc) && name in Keys(FileGroups(doc)) && name !in Keys(RemoteMembers(doc))
              case DuplicateDestination(d) =>
                && WellShaped(doc) && RefsDeclared(doc)
                && exists i, j :: 0 <= i < j < |Destinations(FileGroups(doc))|
                                  && Destinations(FileGroups(doc))[i] == d && Destinations(FileGroups(doc))[j] == d
  {
    CheckShapeCorrect(doc);
    if WellShaped(doc) {
      var ds := Destinations(FileGroups(doc));
      FirstDuplicateCorrect(ds, {});
    }
  }

  /** The validator accepts exactly the documents that are well shaped, reference only declared remotes, and give no two entries the same destination. */
  lemma ValidateAcceptsExactlyConsistent(doc: Value)
    ensures Validate(doc).Success? <==>
              WellShaped(doc) && RefsDeclared(doc) && NoSharedDestination(FileGroups(doc))
  {
    ValidateAcceptsExactlyValid(doc);
    if WellShaped(doc) {
      DistinctIffNoSharedDestination(FileGroups(doc));
    }
  }

  /** A `remotes` member that is not a mapping is rejected, and the error points at `remotes`. */
  lemma RemotesNotObjectRejected(doc: Value)
    requires doc.Obj? && Lookup(doc.members, "remotes").Some? && !Lookup(doc.members, "remotes").value.Obj?
    ensures Validate(doc) == Failure(SchemaViolation([Field("remotes")], NotObject))
  {
  }

  /** A remote declared without `url` makes the document fail the shape layer. */
  lemma MissingUrlRejected(doc: Value, k: int)
    requires HasSections(doc) && 0 <= k < |RemoteMembers(doc)|
    requires RemoteMembers(doc)[k].val.Obj? && "url" !in Keys(RemoteMembers(doc)[k].val.members)
    ensures Validate(doc).Failure? && Validate(doc).error.SchemaViolation?
  {
    CheckShapeCorrect(doc);
  }

  /** A well-shaped document whose `files` names an undeclared remote is rejected with a reference error. */
  lemma UndeclaredRemoteRejected(doc: Value, k: int)
    requires WellShaped(doc) && 0 <= k < |FileGroups(doc)|
    requires FileGroups(doc)[k].key !in Keys(RemoteMembers(doc))
    ensures Validate(doc).Failure? && Validate(doc).error.UndeclaredRemote?
  {
    CheckShapeCorrect(doc);
  }

  /** Two entries at different positions with one destination make an otherwise valid document fail with a duplicate error. */
  lemma SharedDestinationRejected(doc: Value, g1: int, i1: int, g2: int, i2: int)
    requires WellShaped(doc) && RefsDeclared(doc)
    requires IsEntry(FileGroups(doc), g1, i1) && IsEntry(FileGroups(doc), g2, i2) && (g1 != g2 || i1 != i2)
    requires DestAt(FileGroups(doc), g1, i1) == DestAt(FileGroups(doc), g2, i2)
    ensures Validate(doc).Failure? && Validate(doc).error.DuplicateDestination?
  {
    assert !NoSharedDestination(FileGroups(doc));
    ValidateAcceptsExactlyConsistent(doc);
    ValidateErrorsGenuine(doc);
  }
}
