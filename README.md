# git-crossref configuration validator, in Dafny

git-crossref keeps files in a working tree in step with chosen versions of
external git repositories. The repositories and the files taken from each are
declared in a `.gitcrossref` document:

```
remotes: { <name>: { url, base_path?, version? } }
files:   { <remote name>: [ { source, destination, hash?, ignore_changes? } ] }
```

This project models `validate_config_data`, the function that decides whether
such a document may be used. It takes the untyped tree a YAML loader produces
and either returns it unchanged or raises `ValidationError`. Its rules come in
three layers, tried in order:

1. **Shape.** The document is a mapping with a mapping `remotes` and a mapping
   `files`. Each remote is a mapping with a non-empty string `url`, and
   `base_path` and `version` are strings when present. Each `files` value is a
   list of mappings with string `source` and `destination`. `hash` is a string
   and `ignore_changes` a boolean when present.
2. **References.** Every key of `files` names a remote declared in `remotes`.
3. **Uniqueness.** No two file entries share a `destination`, whether they are
   under the same remote or different ones.

Modules:

- `Json` (json.dfy): the document tree (`Value`). Mappings keep their members
  in document order, the order in which a Python dict iterates. The module also
  has `Lookup`, paths into the tree (`Reaches`), and `AllKeysDistinct`, which
  says that no mapping in the tree repeats a key, as holds for any tree built
  from Python dicts.
- `Schema` (schema.dfy): the validator. Each layer appears twice. One form is a
  declarative predicate (`WellShaped`, `RefsDeclared`, `DestinationsUnique`,
  and `NoSharedDestination`, which is stated on positions in the tree). The
  other is the scan that reports the first offence (`CheckShape`, `CheckRefs`,
  `FirstDuplicate`). `Validate` chains the scans. The lemmas prove that it
  accepts exactly the valid documents, that it hands the document back
  unchanged, and that every error it reports names a real defect at a real
  path.
- `Config` (config.dfy): the typed configuration read off an accepted document
  (`FromDocument`, `Load`), and `ToDocument`, which writes a configuration back
  as a document. `ToDocument` is a right inverse of reading: configuration →
  document → configuration gives back the configuration it started from. The
  other direction is not exact, because reading drops what the configuration
  does not hold (see "## Left out"). The written form of every consistent
  configuration is accepted unchanged and repeats no key in any mapping.
- `Scenarios` (scenarios.dfy): each case of `TestValidateConfigData` and
  `TestSchemaValidationDetails`, stated on the test's own document. Each loop
  over sample strings is also stated once for all strings.

The module that defines `validate_config_data` is not part of this model. Its
rules are the ones its tests fix, plus the structure the project's design
gives for the document. The design asks the validator to collect as many
errors as practical. The tests show a single `ValidationError` being raised.
The model follows the tests: it stops at the first error.

## Model

| member | source | states |
|---|---|---|
| `Schema.Validate` | tests/test_schema.py:83-94 | on success the result is the input document itself |
| `Schema.ValidateAcceptsExactlyValid` | tests/test_schema.py:80-171 | success exactly when the document is well shaped, references only declared remotes and repeats no destination |
| `Schema.ValidateAcceptsExactlyConsistent` | tests/test_schema.py:80-171 | success exactly when the document is well shaped, references only declared remotes and no two entries at different positions share a destination |
| `Schema.ValidateErrorsGenuine` | tests/test_schema.py:96-145 | a shape error gives a path that reaches a value with the stated problem; a reference error names a `files` key missing from `remotes` and comes only when the shape is right; a duplicate error names a destination that occurs twice and comes only when shape and references are right |
| `Schema.CheckShapeCorrect` | tests/test_schema.py:96-116 | the shape layer passes exactly on well-shaped documents, and each shape error it reports is genuine |
| `Schema.CheckRemoteCorrect` | tests/test_schema.py:103-116 | a remote passes exactly when it is a mapping with a non-empty string url and string base_path/version when present |
| `Schema.CheckEntryCorrect` | tests/test_schema.py:147-171 | an entry passes exactly when source and destination are strings, hash is a string and ignore_changes a boolean when present |
| `Schema.CheckEntriesCorrect` | tests/test_schema.py:132-145 | a list of entries passes exactly when every entry from the given position on is well shaped; failures are genuine |
| `Schema.CheckGroupCorrect` | tests/test_schema.py:132-145 | a `files` value passes exactly when it is a list of well-shaped entries |
| `Schema.CheckRemotesCorrect` | tests/test_schema.py:103-116 | the `remotes` scan passes exactly when every remote is well shaped; failures are genuine |
| `Schema.CheckGroupsCorrect` | tests/test_schema.py:118-145 | the `files` scan passes exactly when every value is a list of well-shaped entries; failures are genuine |
| `Schema.CheckRefs` | tests/test_schema.py:118-130 | passes exactly when every `files` key is declared; a failure names a key that occurs in `files` and is not declared |
| `Schema.FirstDuplicateCorrect` | tests/test_schema.py:132-145 | the seen-set scan finds nothing exactly when no destination repeats or was already seen; what it reports occurs at a position and also earlier or among those seen |
| `Schema.DistinctIffNoSharedDestination` | tests/test_schema.py:132-145 | the destination list has no repeat exactly when no two entries at different positions, under any remotes, share a destination |
| `Schema.Located` | tests/test_schema.py:132-145 | every destination in the list comes from some entry of the tree |
| `Schema.Listed` | tests/test_schema.py:132-145 | every entry's destination is in the list the uniqueness check scans |
| `Schema.RemotesNotObjectRejected` | tests/test_schema.py:96-101 | a `remotes` that is not a mapping is rejected with a not-a-mapping error at path `remotes` |
| `Schema.MissingUrlRejected` | tests/test_schema.py:103-116 | a remote without `url` makes the document fail with a shape error |
| `Schema.UndeclaredRemoteRejected` | tests/test_schema.py:118-130 | a well-shaped document with a `files` key not among the remotes fails with a reference error |
| `Schema.SharedDestinationRejected` | tests/test_schema.py:132-145 | two entries at different positions with one destination make a well-shaped, well-referenced document fail with a duplicate error |
| `Config.SectionsKeysDistinct` | tests/test_schema.py:85-90 | in a tree built from dicts, the `remotes` and `files` mappings repeat no remote name |
| `Config.FromDocumentConsistent` | tests/test_schema.py:147-171 | the typed view of an accepted document built from dicts has non-empty urls, distinct remote names, distinct `files` keys, every file group's remote declared, and distinct destinations |
| `Config.Load` | tests/test_schema.py:80-171 | succeeds exactly on valid documents, and the result is the document's own typed view (consistent when the document is built from dicts); otherwise fails with the validator's own error |
| `Config.RemoteRoundTrip` | tests/test_schema.py:147-156 | the typed view's own partner lemma, generalising the remote with every optional member in these lines: a remote written out and read back is unchanged |
| `Config.EntryRoundTrip` | tests/test_schema.py:157-165 | the typed view's own partner lemma, generalising the entry with hash and ignore_changes in these lines: a file entry written out and read back is unchanged |
| `Config.RoundTrip` | tests/test_schema.py:147-171 | right inverse: a configuration with non-empty urls, written out, is well shaped and reads back as itself |
| `Config.RereadStable` | tests/test_schema.py:147-171 | reading a well-shaped document, writing the result and reading again gives the first reading |
| `Config.ToDocumentWritesDicts` | tests/test_schema.py:147-171 | the written form of a consistent configuration repeats no key in any mapping |
| `Config.ToDocumentAccepted` | tests/test_schema.py:147-171 | the written form of every consistent configuration is accepted unchanged and repeats no key in any mapping |
| `Scenarios.SingleFileAccepted` | tests/test_schema.py:234-280 | one remote with any non-empty url, any version and one entry with any source and destination is accepted unchanged |
| `Scenarios.ValidConfigReturnedUnchanged` | tests/test_schema.py:83-94 | the test's valid document is returned unchanged |
| `Scenarios.InvalidStructureRejected` | tests/test_schema.py:96-101 | `remotes` a string and `files` a list is rejected at `remotes` |
| `Scenarios.MissingUrlReported` | tests/test_schema.py:103-116 | the remote without url is rejected with a missing-url error at `remotes.origin` |
| `Scenarios.UndeclaredRemoteReported` | tests/test_schema.py:118-130 | entries under `nonexistent` are rejected as an undeclared remote |
| `Scenarios.DuplicateDestinationReported` | tests/test_schema.py:132-145 | two entries with destination `dest/file.py` are rejected naming that destination |
| `Scenarios.OptionalFieldsAccepted` | tests/test_schema.py:147-171 | the all-optional-fields document is accepted unchanged and its base_path, version, hash and ignore_changes reach the typed configuration |
| `Scenarios.UrlShapesAccepted` | tests/test_schema.py:234-249 | https, scp-style and ssh urls are accepted |
| `Scenarios.PathPatternsAccepted` | tests/test_schema.py:251-266 | trailing-slash and `../` paths are accepted |
| `Scenarios.VersionPatternsAccepted` | tests/test_schema.py:268-280 | versions with `.` and `/` and commit-like versions are accepted |

## Left out

- `get_schema` and `get_schema_path` (tests/test_schema.py:18-77): they find and read the schema file and fall back to an embedded schema. This is filesystem access and JSON parsing.
- `validate_config_file` (tests/test_schema.py:174-228): YAML loading, the `InvalidConfigurationError` for a missing file or bad YAML, and the `PermissionError` that passes through. This is file I/O and a foreign parser. Its schema error is the one `Validate` gives.
- The command-line front end (tests/test_main.py): argument parsing, exit codes, log messages and `init`. The code it drives is mocked there.
- A general JSON Schema interpreter: only the concrete rules above are modelled. The real schema file is not part of this model, so members it does not name are ignored, as JSON Schema does by default.
- Schema.Validate: when a document breaks several shape rules, the model reports the first one in document order. The code that defines `validate_config_data` is not part of this model. If it hands the shape check to a JSON Schema library, that library may pick a different one of the violations. Only the fact that the reported error is real (`Schema.ValidateErrorsGenuine`) is promised.
- Schema.RemoteShaped: a non-empty `url` is required, as the project's design states. The tests only use non-empty urls and check no URL grammar.
- Message text of `ValidationError`: errors carry a path and a problem kind, not the rendered diagnostic.
- Numbers and nulls appear in the tree only so that type errors can be stated. Floating-point values are not distinguished from integers.
- Repeated keys in one mapping cannot occur in a Python dict. The validator's model does not assume their absence. `Lookup` takes the first occurrence, and `Schema.Validate` accepts a document that declares `origin` twice under `remotes` when both declarations are well shaped.
- Config.FromDocumentConsistent: distinct remote names and distinct `files` keys are promised only for documents with `AllKeysDistinct`, the dict property. `Config.Load` makes the same promise under the same condition.
- Config.RoundTrip: only configuration → document → configuration is exact. Reading a document drops members the rules do not name, and the order of members inside a remote or an entry. It also reads an absent `ignore_changes` and `ignore_changes: false` alike, and `ToDocument` writes neither. So writing back what was read need not give the original document. `Config.RereadStable` states what does hold.
- The sync planner, orchestrator, remote repository manager and content hasher: none of their code is part of this model.
