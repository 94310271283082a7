# CUBA platform core, modelled in Dafny

This project models a selection of the CUBA platform, a Java framework for
line-of-business applications. It covers the parts of the middleware, the
generic UI and the web client that carry decisions of their own:

- **Presentations** (`presentations.dfy`): the presentation registry of a table
  component. It holds the saved presentations in insertion order, the current
  and the default presentation, and the queues of presentations the next commit
  saves or deletes. The registry is a class whose methods update it in place.
- **EntitySnapshots** (`snapshots.dfy`): the helpers of the entity snapshot
  manager:
  - recognising XML snapshot text;
  - choosing the id column and the id value of an entity;
  - the checks of `createSnapshot`;
  - the class-rename rewrite, applied to a snapshot's XML tree and to its view
    text.
- **S3Storage** (`s3storage.dfy`): the Amazon S3 file storage:
  - the multipart chunking loop over a byte array and the chunk copy;
  - the object-key layout `YYYY/MM/DD/<id>[.<ext>]`;
  - the size contract of `saveStream`.
- **DateField** (`datefield.dfy`): the client-side date field widget:
  - clamping a date into its optional range;
  - filling the `__` placeholders of a partly typed date from today's date;
  - text validation and the edit-or-revert rule on a value change.
- **DbUpdate** (`dbupdate.dfy`): the database check at start-up. On the master
  node each data store is updated or checked; other nodes only check. Messages
  are framed in `=` banners.
- **UiComponents** (`uicomponents.dfy`): registration of external UI components
  from `cuba-ui-component.xml` descriptors. This covers component classes,
  component loaders, and the window and fragment loaders.
- **ScreenFacets** and **DialogFacets** (`screenfacet.dfy`, `dialogfacets.dfy`):
  loading of screen, dialog and option-dialog facets from their XML elements.
- **ConnectionPoolUtils** and **ConnectionPoolSpecificFactory**
  (`connectionpoolutils.dfy`, `connectionpoolfactory.dfy`):
  - the main data-source name;
  - the MBean name patterns of the Commons DBCP, Tomcat JDBC and HikariCP pools;
  - the lookup of the pool's MBean among the registered names.
- **EntityLifecycle** (`entitylifecycle.dfy`): the lifecycle of a persistent
  entity as the core ORM tests pin it down:
  - the `isNew`, `isManaged` and `isDetached` flags;
  - fetch groups left by partial views;
  - which attributes can be read, written and resolved by `getReferenceId`
    after persist, commit, rollback, find, merge and reserialization.

The shared modules do the following:
- `Wrappers`: `Option` and `Result`.
- `JavaStrings`: the `String` and commons-lang operations the code relies on,
  such as `trim`, `split`, `isBlank` and `equalsIgnoreCase`.
- `Xml`: a dom4j-like element tree with attribute and child lookup.
- `Regex`: the fragment of `java.util.regex` the pool patterns use.

Error paths are explicit `Result` values, named after the exception the Java
code throws. A method that loops or changes state in the source is a Dafny
`method` with loop invariants or a `modifies` frame. Its `ensures` ties the
result or the new state to a specification function, and the properties are
proved about that function as lemmas.

## Model

| member | source | states |
|---|---|---|
| Presentations.PutKeepsOrderedKeys | modules/gui/src/com/haulmont/cuba/gui/presentations/PresentationsImpl.java:52-64 | putting a presentation keeps the key order a duplicate-free list of exactly the table's ids (LinkedHashMap put) |
| Presentations.RemoveKey | modules/gui/src/com/haulmont/cuba/gui/presentations/PresentationsImpl.java:161-181 | removing an id keeps every other key and only those |
| Presentations.RemoveKeyDistinct | modules/gui/src/com/haulmont/cuba/gui/presentations/PresentationsImpl.java:161-181 | removal from distinct keys leaves them distinct |
| Presentations.RemoveKeepsOrderedKeys | modules/gui/src/com/haulmont/cuba/gui/presentations/PresentationsImpl.java:161-181 | removal keeps the order and the table in agreement |
| Presentations.LoadedKeys | modules/gui/src/com/haulmont/cuba/gui/presentations/PresentationsImpl.java:293-315 | the order built by checkLoad lists each loaded id exactly once |
| Presentations.LoadedIds | modules/gui/src/com/haulmont/cuba/gui/presentations/PresentationsImpl.java:293-315 | an id is in the loaded table iff some presentation of the query result has it |
| Presentations.LoadedLastWins | modules/gui/src/com/haulmont/cuba/gui/presentations/PresentationsImpl.java:293-315 | a duplicate id in the query result keeps the last presentation with that id |
| Presentations.MoveDefault | modules/gui/src/com/haulmont/cuba/gui/presentations/PresentationsImpl.java:136-153 | setDefault on a stored id clears the old default's flag, sets the new one and changes no other entry or key |
| Presentations.CommittedTable | modules/gui/src/com/haulmont/cuba/gui/presentations/PresentationsImpl.java:228-239 | the commit result adds no id; untouched ids keep their entry; a changed entry is the committed entity, with the default flag when it is the default |
| Presentations.PresentationRegistry.constructor | modules/gui/src/com/haulmont/cuba/gui/presentations/PresentationsImpl.java:48-50 | a new registry is unloaded, with no current or default presentation |
| Presentations.PresentationRegistry.CheckLoad | modules/gui/src/com/haulmont/cuba/gui/presentations/PresentationsImpl.java:293-315 | the first call loads the query result into the table; later calls change nothing; the queues and selections are untouched |
| Presentations.PresentationRegistry.Add | modules/gui/src/com/haulmont/cuba/gui/presentations/PresentationsImpl.java:52-64 | the presentation is stored under its id; a new one is queued for update and, when flagged default, becomes the default |
| Presentations.PresentationRegistry.SetCurrent | modules/gui/src/com/haulmont/cuba/gui/presentations/PresentationsImpl.java:73-86 | null clears the current presentation, a stored id selects it, an unknown id fails with Invalid presentation and leaves it as it was |
| Presentations.PresentationRegistry.SetDefault | modules/gui/src/com/haulmont/cuba/gui/presentations/PresentationsImpl.java:136-153 | null clears the default; a stored id moves the default flag to it; an unknown id fails without changing anything |
| Presentations.PresentationRegistry.Remove | modules/gui/src/com/haulmont/cuba/gui/presentations/PresentationsImpl.java:161-181 | a stored presentation leaves the table and the update queue, is queued for deletion unless new, and stops being current or default; an absent id changes nothing |
| Presentations.PresentationRegistry.Modify | modules/gui/src/com/haulmont/cuba/gui/presentations/PresentationsImpl.java:184-196 | a stored presentation is queued for update and the default follows its flag; an unknown id fails |
| Presentations.PresentationRegistry.IsAutoSave | modules/gui/src/com/haulmont/cuba/gui/presentations/PresentationsImpl.java:199-202 | true iff the id is stored and flagged auto-save |
| Presentations.PresentationRegistry.IsGlobal | modules/gui/src/com/haulmont/cuba/gui/presentations/PresentationsImpl.java:205-208 | true iff the id is stored, not new and owned by no user |
| Presentations.PresentationRegistry.GetPresentationByName | modules/gui/src/com/haulmont/cuba/gui/presentations/PresentationsImpl.java:260-267 | the first presentation in insertion order whose name equals the argument ignoring case; none when no name matches; an unloaded table fails |
| Presentations.PresentationRegistry.ClearCommitList | modules/gui/src/com/haulmont/cuba/gui/presentations/PresentationsImpl.java:317-320 | both queues become empty and nothing else changes |
| Presentations.PresentationRegistry.Commited | modules/gui/src/com/haulmont/cuba/gui/presentations/PresentationsImpl.java:228-239 | the table becomes the committed table of the entities; before loading, a non-empty result fails on the null table |
| Presentations.PresentationRegistry.Commit | modules/gui/src/com/haulmont/cuba/gui/presentations/PresentationsImpl.java:211-226 | with empty queues nothing is sent and nothing changes; otherwise the queued presentations are sent, the result applied and both queues emptied |
| Presentations.CommitTwice | modules/gui/src/com/haulmont/cuba/gui/presentations/PresentationsImpl.java:211-226 | right after a commit, a second commit sends nothing |
| EntitySnapshots.IsXmlIffFirstVisibleIsLt | modules/core/src/com/haulmont/cuba/core/app/EntitySnapshotManager.java:257-259 | snapshot text counts as XML iff its first character above the space is '<' |
| EntitySnapshots.XmlStartsWithLt | modules/core/src/com/haulmont/cuba/core/app/EntitySnapshotManager.java:257-259 | text that counts as XML has '<' as its first visible character |
| EntitySnapshots.LtFirstIsXml | modules/core/src/com/haulmont/cuba/core/app/EntitySnapshotManager.java:257-259 | text whose first visible character is '<' counts as XML |
| EntitySnapshots.EntityIdPropertyName | modules/core/src/com/haulmont/cuba/core/app/EntitySnapshotManager.java:278-302 | one of the four id columns, failing iff the entity has no uuid and its key is missing or of another type |
| EntitySnapshots.IdColumnMatchesIdValue | modules/core/src/com/haulmont/cuba/core/app/EntitySnapshotManager.java:261-302 | for a well-typed entity the column chosen is the one storing the type of the id value that getEntityId returns |
| EntitySnapshots.EntityIdUnwrapsProxy | modules/core/src/com/haulmont/cuba/core/app/EntitySnapshotManager.java:261-270 | the uuid of a HasUuid entity, otherwise the id with the IdProxy wrapper removed |
| EntitySnapshots.CheckCompositePrimaryKey | modules/core/src/com/haulmont/cuba/core/app/EntitySnapshotManager.java:272-276 | fails iff the key is composite and the entity has no uuid |
| EntitySnapshots.CreateSnapshot | modules/core/src/com/haulmont/cuba/core/app/EntitySnapshotManager.java:154-189 | a null argument fails first, then a composite key without uuid, then a view of another class; a snapshot holds the entity id, the original meta-class, both JSON texts, the date and the author |
| EntitySnapshots.ReplaceClassesSpec | modules/core/src/com/haulmont/cuba/core/app/EntitySnapshotManager.java:315-339 | the rewrite changes only the element's name and its first class attribute; the children and other attributes are kept |
| EntitySnapshots.ReplaceClasses | modules/core/src/com/haulmont/cuba/core/app/EntitySnapshotManager.java:315-339 | the loop over the mapping entries gives the rewrite of the entries in iteration order |
| EntitySnapshots.IdentityEntriesAreSkipped | modules/core/src/com/haulmont/cuba/core/app/EntitySnapshotManager.java:325-337 | entries mapping a class to itself have no effect |
| EntitySnapshots.Effective | modules/core/src/com/haulmont/cuba/core/app/EntitySnapshotManager.java:325 | the entries kept are entries of the mapping whose classes differ |
| EntitySnapshots.RenamedIsKeyed | modules/core/src/com/haulmont/cuba/core/app/EntitySnapshotManager.java:315-339 | a class is renamed only through an entry keyed by it |
| EntitySnapshots.RenameStep | modules/core/src/com/haulmont/cuba/core/app/EntitySnapshotManager.java:315-339 | for a proper class map, the last entry applied after the others renames as the whole map does |
| EntitySnapshots.ApplyMappingClassAttribute | modules/core/src/com/haulmont/cuba/core/app/EntitySnapshotManager.java:333-336 | an entry rewrites the class attribute's value exactly when it is the entry's before class |
| EntitySnapshots.ReplaceClassesFollowsMapping | modules/core/src/com/haulmont/cuba/core/app/EntitySnapshotManager.java:315-339 | for a proper class map, the element name and the class attribute come out as the map's image of what they were |
| EntitySnapshots.RewriteAllOf | modules/core/src/com/haulmont/cuba/core/app/EntitySnapshotManager.java:304-313 | each child is rewritten on its own, the number of children kept |
| EntitySnapshots.RewritesEveryElementOnce | modules/core/src/com/haulmont/cuba/core/app/EntitySnapshotManager.java:304-313 | the tree keeps its shape and text nodes, and every element gets exactly one application of replaceClasses |
| EntitySnapshots.RewritePreservesText | modules/core/src/com/haulmont/cuba/core/app/EntitySnapshotManager.java:304-313 | the descendant text of the tree is unchanged by the rewrite |
| EntitySnapshots.ReplaceInXmlTree | modules/core/src/com/haulmont/cuba/core/app/EntitySnapshotManager.java:304-313 | the element keeps its own name and attributes, and its children are rewritten recursively |
| EntitySnapshots.ProcessSnapshotXml | modules/core/src/com/haulmont/cuba/core/app/EntitySnapshotManager.java:360-373 | non-XML text comes back unchanged; unparsable XML fails; otherwise the whole parsed tree, root included, is rewritten and rendered |
| EntitySnapshots.ReplaceAllWithoutOccurrence | modules/core/src/com/haulmont/cuba/core/app/EntitySnapshotManager.java:355 | under the model's literal replacement (see Left out), view text without the before name is unchanged |
| EntitySnapshots.ReplaceAllSelf | modules/core/src/com/haulmont/cuba/core/app/EntitySnapshotManager.java:355 | under the model's literal replacement (see Left out), replacing a name by itself leaves the text as it is |
| EntitySnapshots.ProcessViewXml | modules/core/src/com/haulmont/cuba/core/app/EntitySnapshotManager.java:341-358 | non-XML view text comes back unchanged; XML text has every entry replaced in iteration order, identity entries included |
| EntitySnapshots.IdentityMappingKeepsView | modules/core/src/com/haulmont/cuba/core/app/EntitySnapshotManager.java:341-358 | under the model's literal replacement (see Left out), a mapping of classes to themselves leaves the view text unchanged |
| S3Storage.Int32 | modules/core/src/com/haulmont/cuba/core/app/filestorage/amazon/AmazonS3FileStorage.java:96 | Java int arithmetic: the result is in the 32-bit range and equals the value whenever the value fits |
| S3Storage.WrittenChunkEndOverflows | modules/core/src/com/haulmont/cuba/core/app/filestorage/amazon/AmazonS3FileStorage.java:96-119 | for an 8 MiB chunk and any array longer than 255 chunks, up to Integer.MAX_VALUE bytes, the 256th chunk's end as written lies before its start; the wrapped `end - start` is one chunk, which reaches past the data, so the copy at :119 fails |
| S3Storage.ChunkEndInRange | modules/core/src/com/haulmont/cuba/core/app/filestorage/amazon/AmazonS3FileStorage.java:96 | the corrected end lies after the start, within the data and within one chunk; every chunk but the last is full |
| S3Storage.FlattenAppend | modules/core/src/com/haulmont/cuba/core/app/filestorage/amazon/AmazonS3FileStorage.java:89-103 | one more upload appends its bytes to those already sent |
| S3Storage.GetChunkBytes | modules/core/src/com/haulmont/cuba/core/app/filestorage/amazon/AmazonS3FileStorage.java:117-121 | a fresh array holding exactly the bytes from start to end |
| S3Storage.SaveFileParts | modules/core/src/com/haulmont/cuba/core/app/filestorage/amazon/AmazonS3FileStorage.java:76-115 | the parts together are the data, numbered from 1, all full but a non-empty last one, none for empty data; one completed part per upload with its eTag |
| S3Storage.TwoDigitsRoundTrip | modules/core/src/com/haulmont/cuba/core/app/filestorage/amazon/AmazonS3FileStorage.java:178-187 | a month or day is printed as exactly two digits that read back as the number |
| S3Storage.DateFieldsReadBack | modules/core/src/com/haulmont/cuba/core/app/filestorage/amazon/AmazonS3FileStorage.java:178-187 | the year and the two-digit month and day are digits only, without '/', and read back as the date's fields |
| S3Storage.FileNameHasNoSlash | modules/core/src/com/haulmont/cuba/core/app/filestorage/amazon/AmazonS3FileStorage.java:189-195 | the file name of an id and extension without '/' has no '/' |
| S3Storage.KeyFromParts | modules/core/src/com/haulmont/cuba/core/app/filestorage/amazon/AmazonS3FileStorage.java:171-173 | the object key is the storage directory, '/', and the file name |
| S3Storage.ParseJoined | modules/core/src/com/haulmont/cuba/core/app/filestorage/amazon/AmazonS3FileStorage.java:171-187 | four slash-free segments joined by '/' split back into the same four |
| S3Storage.ObjectKeyRoundTrip | modules/core/src/com/haulmont/cuba/core/app/filestorage/amazon/AmazonS3FileStorage.java:171-195 | the object key reads back to the descriptor's create date and the file name |
| S3Storage.SaveStream | modules/core/src/com/haulmont/cuba/core/app/filestorage/amazon/AmazonS3FileStorage.java:63-73 | succeeds iff the size is set and the stream is readable, then returns the descriptor's size; a null size fails first; an unreadable stream fails naming the file |
| DateField.AdjustDateByRange | modules/web-toolkit/src/com/haulmont/cuba/web/widgets/client/datefield/CubaDateFieldWidget.java:222-236 | the result is the date or a bound; a date in range is kept; one before the start becomes the start, one after the end the end |
| DateField.AdjustIsIdempotent | modules/web-toolkit/src/com/haulmont/cuba/web/widgets/client/datefield/CubaDateFieldWidget.java:222-236 | within a consistent range, clamping a clamped date changes nothing |
| DateField.ParseRangeString | modules/web-toolkit/src/com/haulmont/cuba/web/widgets/client/datefield/CubaDateFieldWidget.java:184-190 | null or empty clears the bound; other text succeeds iff it parses, giving the parsed date |
| DateField.FillSkipsNoPair | modules/web-toolkit/src/com/haulmont/cuba/web/widgets/client/datefield/CubaDateFieldWidget.java:197-202 | a stretch without a "__" pair is copied unchanged by the fill |
| DateField.FilledShape | modules/web-toolkit/src/com/haulmont/cuba/web/widgets/client/datefield/CubaDateFieldWidget.java:197-202 | the filled text keeps the length, changes only '_' characters, each to the date's character at that index, and has no "__" left |
| DateField.FilledFailsOnlyWhenDateIsShort | modules/web-toolkit/src/com/haulmont/cuba/web/widgets/client/datefield/CubaDateFieldWidget.java:197-202 | the fill can only fail when the date text is shorter than the value |
| DateField.FillPlaceholders | modules/web-toolkit/src/com/haulmont/cuba/web/widgets/client/datefield/CubaDateFieldWidget.java:197-202 | the StringBuilder loop gives the fill of every pair, left to right |
| DateField.NoPairBeforeIndex | modules/web-toolkit/src/com/haulmont/cuba/web/widgets/client/datefield/CubaDateFieldWidget.java:197-199 | where the builder still equals the value, indexOf finding nothing earlier means no pair there |
| DateField.NoPairAfterReplacement | modules/web-toolkit/src/com/haulmont/cuba/web/widgets/client/datefield/CubaDateFieldWidget.java:199-201 | replacing the first pair by two non-'_' characters leaves no pair up to them |
| DateField.AdjustFilledValue | modules/web-toolkit/src/com/haulmont/cuba/web/widgets/client/datefield/CubaDateFieldWidget.java:211-220 | fails iff the filled text does not parse; an in-range date keeps the text; a changed text is the formatted clamped date |
| DateField.FillValueOutcome | modules/web-toolkit/src/com/haulmont/cuba/web/widgets/client/datefield/CubaDateFieldWidget.java:192-209 | text not ending in "__" comes back as is; a long enough date fills every pair; a filled date in range is returned as filled |
| DateField.DateFieldWidget.constructor | modules/web-toolkit/src/com/haulmont/cuba/web/widgets/client/datefield/CubaDateFieldWidget.java:37-47 | a new widget: no range, no autofill, editable, tab index 0, no change events |
| DateField.DateFieldWidget.SetReadonly | modules/web-toolkit/src/com/haulmont/cuba/web/widgets/client/datefield/CubaDateFieldWidget.java:73-77 | a read-only field leaves the tab order (-1); an editable one gets its tab index back |
| DateField.DateFieldWidget.UpdateTabIndex | modules/web-toolkit/src/com/haulmont/cuba/web/widgets/client/datefield/CubaDateFieldWidget.java:103-105 | the tab index is stored, nothing else changes |
| DateField.DateFieldWidget.SetAutofill | modules/web-toolkit/src/com/haulmont/cuba/web/widgets/client/datefield/CubaDateFieldWidget.java:79-81 | the autofill flag is stored, nothing else changes |
| DateField.DateFieldWidget.SetDateRangeStart | modules/web-toolkit/src/com/haulmont/cuba/web/widgets/client/datefield/CubaDateFieldWidget.java:87-89 | the start bound becomes the parsed text; a parse failure leaves the old bound |
| DateField.DateFieldWidget.SetDateRangeEnd | modules/web-toolkit/src/com/haulmont/cuba/web/widgets/client/datefield/CubaDateFieldWidget.java:95-97 | the end bound becomes the parsed text; a parse failure leaves the old bound |
| DateField.DateFieldWidget.ValidateText | modules/web-toolkit/src/com/haulmont/cuba/web/widgets/client/datefield/CubaDateFieldWidget.java:118-134 | the null representation always passes; other text passes iff the mask accepts it and the date service parses it |
| DateField.DateFieldWidget.FillValue | modules/web-toolkit/src/com/haulmont/cuba/web/widgets/client/datefield/CubaDateFieldWidget.java:192-209 | the result is the autofilled, clamped text, shown in the text box when the fill applies |
| DateField.DateFieldWidget.ValueChange | modules/web-toolkit/src/com/haulmont/cuba/web/widgets/client/datefield/CubaDateFieldWidget.java:137-156 | unedited text changes nothing; edited text is autofilled when enabled, then accepted with one change event or reverted to the value before edit |
| DbUpdate.MaxLength | modules/core/src/com/haulmont/cuba/core/sys/dbupdate/DbUpdaterManager.java:119-126 | the longest line's length: no line is longer, and some line has it |
| DbUpdate.WrapTextLayout | modules/core/src/com/haulmont/cuba/core/sys/dbupdate/DbUpdaterManager.java:119-126 | the banner's rules are as wide as the message's longest line; removing them gives the message back |
| DbUpdate.AutomaticUpdatePropertyName | modules/core/src/com/haulmont/cuba/core/sys/dbupdate/DbUpdaterManager.java:114-117 | "cuba.automaticDatabaseUpdate_MAIN" for the main store, the store's name appended otherwise |
| DbUpdate.PropertyNamesDiffer | modules/core/src/com/haulmont/cuba/core/sys/dbupdate/DbUpdaterManager.java:114-117 | different additional stores have different property names |
| DbUpdate.CheckDatabase | modules/core/src/com/haulmont/cuba/core/sys/dbupdate/DbUpdaterManager.java:84-106 | succeeds iff the store is initialized and its scripts are readable; an uninitialized store fails naming the enabling property; pending scripts only warn |
| DbUpdate.NonMasterNeverUpdates | modules/core/src/com/haulmont/cuba/core/sys/dbupdate/DbUpdaterManager.java:57-72 | a node that is not the master never updates a store |
| DbUpdate.StartupHandlesEveryStore | modules/core/src/com/haulmont/cuba/core/sys/dbupdate/DbUpdaterManager.java:57-72 | a start-up without an exception handles every store; on the master exactly the stores with automatic update enabled are updated |
| DbUpdate.HandledOnlyItself | modules/core/src/com/haulmont/cuba/core/sys/dbupdate/DbUpdaterManager.java:57-112 | the actions for one store name only that store, updated or checked as decided |
| DbUpdate.StartupMentionsOnlyItsStores | modules/core/src/com/haulmont/cuba/core/sys/dbupdate/DbUpdaterManager.java:57-72 | start-up actions only name stores of the list |
| DbUpdate.StartupStopsAtFailure | modules/core/src/com/haulmont/cuba/core/sys/dbupdate/DbUpdaterManager.java:57-72 | once a store fails, the later stores are not handled |
| DbUpdate.ApplicationInitialized | modules/core/src/com/haulmont/cuba/core/sys/dbupdate/DbUpdaterManager.java:57-72 | the two loops of the source give the start-up decision for every store in order |
| UiComponents.ReadEntryFields | modules/web/src/com/haulmont/cuba/web/sys/WebExternalUIComponentsSource.java:148-155 | absent children read as empty; the tag defaults to the name and is empty only when both are |
| UiComponents.RegisterEntryEffect | modules/web/src/com/haulmont/cuba/web/sys/WebExternalUIComponentsSource.java:157-193 | a skipped element changes nothing; a Component class is bound to the name, a ComponentLoader to the tag; an unloadable class ends the loop |
| UiComponents.TagOnlyEntryRegistersLoader | modules/web/src/com/haulmont/cuba/web/sys/WebExternalUIComponentsSource.java:157-193 | an element with a tag and a loader but no name still registers the loader |
| UiComponents.RegisteredComponentsComeFromEntries | modules/web/src/com/haulmont/cuba/web/sys/WebExternalUIComponentsSource.java:147-194 | registration only adds or rebinds components, each new binding from an element whose class is a Component |
| UiComponents.RegisteredLoadersComeFromEntries | modules/web/src/com/haulmont/cuba/web/sys/WebExternalUIComponentsSource.java:147-194 | registration only adds or rebinds loaders, each new binding from an element naming a ComponentLoader |
| UiComponents.RegisterStopsAtFailure | modules/web/src/com/haulmont/cuba/web/sys/WebExternalUIComponentsSource.java:147-194 | once an element fails, the later elements are not looked at |
| UiComponents.EntriesRead | modules/web/src/com/haulmont/cuba/web/sys/WebExternalUIComponentsSource.java:146-155 | one entry per component element, in document order |
| UiComponents.LoadWindowLoader | modules/web/src/com/haulmont/cuba/web/sys/WebExternalUIComponentsSource.java:212-228 | no element gives nothing; otherwise the class child's class when loadable and of the expected kind, a failure when it cannot be loaded |
| UiComponents.Tokens | modules/web/src/com/haulmont/cuba/web/sys/WebExternalUIComponentsSource.java:111-112 | the configured locations are non-empty runs without delimiters |
| UiComponents.TokensOfSpaced | modules/web/src/com/haulmont/cuba/web/sys/WebExternalUIComponentsSource.java:111-112 | tokens joined by single spaces tokenize back to themselves |
| UiComponents.LoadLoadersEffect | modules/web/src/com/haulmont/cuba/web/sys/WebExternalUIComponentsSource.java:200-210 | a suitable window loader replaces the registered one even if the fragment loader then fails; a missing element keeps it; a failing window loader stops before the fragment loader |
| UiComponents.RegisterParsedFailure | modules/web/src/com/haulmont/cuba/web/sys/WebExternalUIComponentsSource.java:142-197 | a ClassNotFound failure comes from a component entry and leaves the window and fragment loaders |
| UiComponents.EmptyDescriptor | modules/web/src/com/haulmont/cuba/web/sys/WebExternalUIComponentsSource.java:142-197 | a descriptor without component or loader elements changes nothing |
| UiComponents.RegisterEntriesFailure | modules/web/src/com/haulmont/cuba/web/sys/WebExternalUIComponentsSource.java:157-193 | every failure of the component loop is a ClassNotFound |
| UiComponents.RegisteringNamesNoLocation | modules/web/src/com/haulmont/cuba/web/sys/WebExternalUIComponentsSource.java:142-197 | registering a descriptor never reports a configuration location |
| UiComponents.DescriptorsStopAtFailure | modules/web/src/com/haulmont/cuba/web/sys/WebExternalUIComponentsSource.java:130-139 | once a descriptor fails, the later descriptors are not read |
| UiComponents.LocationStep | modules/web/src/com/haulmont/cuba/web/sys/WebExternalUIComponentsSource.java:112-127 | a location is skipped after a failure or when its resource is missing, and registered otherwise |
| UiComponents.LocationsStopAtFailure | modules/web/src/com/haulmont/cuba/web/sys/WebExternalUIComponentsSource.java:112-127 | once a location fails, the later locations are not read |
| UiComponents.RegisterLocationsOutcome | modules/web/src/com/haulmont/cuba/web/sys/WebExternalUIComponentsSource.java:102-128 | missing resources change nothing; a failure names a location as unable to load its config, or is a loader failure |
| UiComponents.InitializeNothing | modules/web/src/com/haulmont/cuba/web/sys/WebExternalUIComponentsSource.java:88-100 | with no configured locations and no descriptors nothing is registered |
| UiComponents.InitializeStopsAtAppFailure | modules/web/src/com/haulmont/cuba/web/sys/WebExternalUIComponentsSource.java:88-100 | a failing application configuration keeps the class-path descriptors from being read |
| UiComponents.ComponentRegistry.constructor | modules/web/src/com/haulmont/cuba/web/sys/WebExternalUIComponentsSource.java:88-100 | empty registries |
| UiComponents.ComponentRegistry.LoadWindowLoaders | modules/web/src/com/haulmont/cuba/web/sys/WebExternalUIComponentsSource.java:200-210 | the window and fragment loaders become those of the loader specification |
| UiComponents.ComponentRegistry.RegisterEntryFields | modules/web/src/com/haulmont/cuba/web/sys/WebExternalUIComponentsSource.java:157-193 | one element's body updates the registries as its specification says |
| UiComponents.ComponentRegistry.RegisterEntryList | modules/web/src/com/haulmont/cuba/web/sys/WebExternalUIComponentsSource.java:147-194 | the component loop updates the registries as the entry specification says, stopping at the first failure |
| UiComponents.ComponentRegistry.RegisterComponent | modules/web/src/com/haulmont/cuba/web/sys/WebExternalUIComponentsSource.java:142-197 | one descriptor: the component elements, then, unless one failed, the loaders |
| UiComponents.ComponentRegistry.RegisterAppComponents | modules/web/src/com/haulmont/cuba/web/sys/WebExternalUIComponentsSource.java:102-128 | an unset or empty location list changes nothing; otherwise the tokenized locations are registered in order |
| UiComponents.ComponentRegistry.RegisterComponents | modules/web/src/com/haulmont/cuba/web/sys/WebExternalUIComponentsSource.java:130-139 | the descriptors are registered in order until one fails |
| UiComponents.ComponentRegistry.Init | modules/web/src/com/haulmont/cuba/web/sys/WebExternalUIComponentsSource.java:88-100 | application components, then add-on jars, then web modules; the first failure ends the registration |
| ScreenFacets.ReadPropertyOutcome | modules/web/src/com/haulmont/cuba/web/gui/facets/ScreenFacetProvider.java:104-126 | a property is read iff it has a name and exactly one of a value and a reference, which decides its type |
| ScreenFacets.ReadPropertiesOk | modules/web/src/com/haulmont/cuba/web/gui/facets/ScreenFacetProvider.java:90-129 | properties are read iff every element is, one entry per element in document order |
| ScreenFacets.ReadPropertiesErr | modules/web/src/com/haulmont/cuba/web/gui/facets/ScreenFacetProvider.java:90-129 | a failure is that of the first failing element |
| ScreenFacets.PropertiesStopAtFailure | modules/web/src/com/haulmont/cuba/web/gui/facets/ScreenFacetProvider.java:90-129 | once a property fails, the later ones are not read |
| ScreenFacets.NoPropertiesNotSet | modules/web/src/com/haulmont/cuba/web/gui/facets/ScreenFacetProvider.java:90-100 | without a properties element or property children, setProperties is not called |
| ScreenFacets.PropertiesSetAreNamed | modules/web/src/com/haulmont/cuba/web/gui/facets/ScreenFacetProvider.java:90-129 | the properties set are never an empty list, and each has a name |
| ScreenFacets.ScreenFacet.constructor | modules/web/src/com/haulmont/cuba/web/gui/facets/ScreenFacetProvider.java:61-67 | a facet with nothing set |
| ScreenFacets.ScreenFacet.LoadId | modules/web/src/com/haulmont/cuba/web/gui/facets/ScreenFacetProvider.java:69-74 | a non-empty id attribute replaces the id, an empty one keeps it |
| ScreenFacets.ScreenFacet.LoadScreen | modules/web/src/com/haulmont/cuba/web/gui/facets/ScreenFacetProvider.java:76-81 | a non-empty screen attribute replaces the screen id |
| ScreenFacets.ScreenFacet.LoadOpenMode | modules/web/src/com/haulmont/cuba/web/gui/facets/ScreenFacetProvider.java:83-88 | a non-empty open mode must name an open mode, which is then set; an unknown one fails |
| ScreenFacets.ScreenFacet.LoadProperties | modules/web/src/com/haulmont/cuba/web/gui/facets/ScreenFacetProvider.java:90-129 | the properties are set only when all were read |
| ScreenFacets.ScreenFacet.LoadFromXml | modules/web/src/com/haulmont/cuba/web/gui/facets/ScreenFacetProvider.java:61-67 | id, screen, open mode, then properties; an unknown open mode stops before the properties |
| DialogFacets.LoadThemeStringCases | modules/web/src/com/haulmont/cuba/web/gui/facets/DialogFacetProvider.java:209-215 | a prefixed value becomes the theme constant it names; other values are unchanged |
| DialogFacets.IconPathChain | modules/web/src/com/haulmont/cuba/web/gui/facets/DialogFacetProvider.java:182-207 | no icon gives null; a registered icon name gives its path; otherwise a themed value resolves to its constant looked up in the message bundle (null when no constant) and a plain value to the bundle's string for it |
| DialogFacets.LoadActionPrimary | modules/web/src/com/haulmont/cuba/web/gui/facets/DialogFacetProvider.java:170-180 | an action is primary iff its primary attribute reads "true" ignoring case; it keeps its id |
| DialogFacets.LoadActionListMaps | modules/web/src/com/haulmont/cuba/web/gui/facets/DialogFacetProvider.java:155-168 | one action per element, in document order |
| DialogFacets.ActionsPerElement | modules/web/src/com/haulmont/cuba/web/gui/facets/OptionDialogFacetProvider.java:70-83 | an actions element gives one action per action child in document order; without it nothing is set |
| DialogFacets.TargetExclusive | modules/web/src/com/haulmont/cuba/web/gui/components/AbstractDialogFacetProvider.java:121-137 | both targets fail and set neither; a lone action or button target is set; neither changes nothing |
| DialogFacets.EmptyAttributesKeepSettings | modules/web/src/com/haulmont/cuba/web/gui/components/AbstractDialogFacetProvider.java:50-119 | absent or empty attributes leave the settings as they were |
| DialogFacets.NonEmptyAttributesApplied | modules/web/src/com/haulmont/cuba/web/gui/components/AbstractDialogFacetProvider.java:50-119 | when loading succeeds every non-empty attribute is applied, maximized and modal parsed as booleans |
| DialogFacets.UnknownNamesFail | modules/web/src/com/haulmont/cuba/web/gui/components/AbstractDialogFacetProvider.java:33-97 | an unknown message type fails after id, caption and message are set; an unknown content mode fails after the size |
| DialogFacets.DialogHasNoTarget | modules/web/src/com/haulmont/cuba/web/gui/facets/DialogFacetProvider.java:67-82 | a dialog facet loads no target, even when the element names both |
| DialogFacets.OptionDialogExtendsAbstract | modules/web/src/com/haulmont/cuba/web/gui/facets/OptionDialogFacetProvider.java:64-68 | an option dialog fails on two targets before reading actions, and otherwise loads as a dialog facet does, with the target |
| DialogFacets.DialogFacet.constructor | modules/web/src/com/haulmont/cuba/web/gui/components/AbstractDialogFacetProvider.java:33-48 | a facet with nothing set |
| DialogFacets.DialogFacet.LoadTitle | modules/web/src/com/haulmont/cuba/web/gui/components/AbstractDialogFacetProvider.java:50-69 | id, caption and message are applied as the title settings say |
| DialogFacets.DialogFacet.LoadType | modules/web/src/com/haulmont/cuba/web/gui/components/AbstractDialogFacetProvider.java:71-76 | a non-empty type must name a message type, which is then set |
| DialogFacets.DialogFacet.LoadSize | modules/web/src/com/haulmont/cuba/web/gui/components/AbstractDialogFacetProvider.java:78-90 | width and height are applied as the size settings say |
| DialogFacets.DialogFacet.LoadContentMode | modules/web/src/com/haulmont/cuba/web/gui/components/AbstractDialogFacetProvider.java:92-97 | a non-empty content mode must name a content mode, which is then set |
| DialogFacets.DialogFacet.LoadWindow | modules/web/src/com/haulmont/cuba/web/gui/components/AbstractDialogFacetProvider.java:99-119 | maximized, modal and style name are applied as the window settings say |
| DialogFacets.DialogFacet.LoadCommon | modules/web/src/com/haulmont/cuba/web/gui/components/AbstractDialogFacetProvider.java:33-47 | the settings and outcome of the common attribute loading |
| DialogFacets.DialogFacet.LoadTarget | modules/web/src/com/haulmont/cuba/web/gui/components/AbstractDialogFacetProvider.java:121-137 | the settings and outcome of the target loading |
| DialogFacets.DialogFacet.LoadActions | modules/web/src/com/haulmont/cuba/web/gui/facets/DialogFacetProvider.java:155-168 | the mapped action elements replace the actions when there is an actions element |
| DialogFacets.DialogFacet.LoadAbstractDialog | modules/web/src/com/haulmont/cuba/web/gui/components/AbstractDialogFacetProvider.java:33-48 | the common attributes, then the target |
| DialogFacets.DialogFacet.LoadDialog | modules/web/src/com/haulmont/cuba/web/gui/facets/DialogFacetProvider.java:67-82 | the common attributes, then the actions |
| DialogFacets.DialogFacet.LoadOptionDialog | modules/web/src/com/haulmont/cuba/web/gui/facets/OptionDialogFacetProvider.java:64-68 | the abstract dialog loading, then the actions |
| ConnectionPoolUtils.FirstMatchIsFirst | modules/core/src/com/haulmont/cuba/core/sys/connectionpool/ConnectionPoolUtils.java:28-40 | a name is found iff one matches, and it is the first that does |
| ConnectionPoolUtils.FindFirstMatching | modules/core/src/com/haulmont/cuba/core/sys/connectionpool/ConnectionPoolSpecificFactory.java:68-76 | the loop over the registered names returns the first one the pattern matches |
| ConnectionPoolUtils.PoolObjectName | modules/core/src/com/haulmont/cuba/core/sys/connectionpool/ConnectionPoolUtils.java:28-40 | a null pattern gives null; otherwise the first matching name |
| ConnectionPoolUtils.StripTrailing | modules/core/src/com/haulmont/cuba/core/sys/connectionpool/ConnectionPoolUtils.java:42-50 | a prefix of the text, followed only by the stripped character, and not ending in it |
| ConnectionPoolUtils.MainDatasourceNameOutcome | modules/core/src/com/haulmont/cuba/core/sys/connectionpool/ConnectionPoolUtils.java:42-50 | unset gives "CubaDS"; a name without '/' is itself; only slashes fails; otherwise the last non-empty segment |
| ConnectionPoolSpecificFactory.MainDatasourceNameStripsOnce | modules/core/src/com/haulmont/cuba/core/sys/connectionpool/ConnectionPoolSpecificFactory.java:100-110 | null fails; one leading java:comp/env/ is removed; a name without it is kept |
| ConnectionPoolSpecificFactory.PatternOfMatches | modules/core/src/com/haulmont/cuba/core/sys/connectionpool/ConnectionPoolSpecificFactory.java:87-94 | the Tomcat pattern of a pool name and context matches the MBean tomcat-jdbc registers for them |
| ConnectionPoolSpecificFactory.TomcatAsWrittenMissesPool | modules/core/src/com/haulmont/cuba/core/sys/connectionpool/ConnectionPoolSpecificFactory.java:87-94 | the corrected pattern finds the pool; the pattern as written misses it unless the two names coincide |
| ConnectionPoolSpecificFactory.TomcatAsWrittenExample | modules/core/src/com/haulmont/cuba/core/sys/connectionpool/ConnectionPoolSpecificFactory.java:87-94 | for context "app" and data source "jdbc/CubaDS" the pattern as written misses the pool |
| ConnectionPoolSpecificFactory.HikariAsWrittenMissesPools | modules/core/src/com/haulmont/cuba/core/sys/connectionpool/ConnectionPoolSpecificFactory.java:96-98 | the pattern as written matches no HikariCP pool; the corrected one matches every pool |
| ConnectionPoolSpecificFactory.PoolInfoOutcome | modules/core/src/com/haulmont/cuba/core/sys/connectionpool/ConnectionPoolSpecificFactory.java:38-98 | for the patterns as written and for the corrected ones: unsupported kinds and unmatched patterns give the empty info; only COMMONS and TOMCAT without a JNDI name fail; otherwise the configured kind with the first name its pattern matches |
| ConnectionPoolSpecificFactory.HikariAsWrittenFindsNothing | modules/core/src/com/haulmont/cuba/core/sys/connectionpool/ConnectionPoolSpecificFactory.java:52-63 | as written, HIKARI gives the empty info whenever no registered name begins with the misspelt package |
| ConnectionPoolSpecificFactory.HikariAsWrittenMissesRegisteredPools | modules/core/src/com/haulmont/cuba/core/sys/connectionpool/ConnectionPoolSpecificFactory.java:52-63 | as written, HIKARI gives the empty info over any list of HikariCP pools |
| ConnectionPoolSpecificFactory.HikariPoolFound | modules/core/src/com/haulmont/cuba/core/sys/connectionpool/ConnectionPoolSpecificFactory.java:52-63 | with the corrected HIKARI pattern, a registered HikariCP pool is found |
| ConnectionPoolSpecificFactory.TomcatDispatchExample | modules/core/src/com/haulmont/cuba/core/sys/connectionpool/ConnectionPoolSpecificFactory.java:48-63 | TOMCAT for context "app" and data source "jdbc/CubaDS": as written the empty info, corrected the registered pool |
| ConnectionPoolSpecificFactory.GetConnectionPoolInfo | modules/core/src/com/haulmont/cuba/core/sys/connectionpool/ConnectionPoolSpecificFactory.java:38-66 | the switch and the lookup, with the patterns as written or corrected, give that family's pool info specification |
| EntityLifecycle.TransitionsKeepValid | modules/core/test/com/haulmont/cuba/core/EntityStateTest.java:48-160 | every transition keeps an instance's loaded attributes, values and fetch group consistent |
| EntityLifecycle.FoundIsValid | modules/core/test/com/haulmont/cuba/core/EclipseLinkDetachedTest.java:139-168 | an instance found with a view of its class is valid |
| EntityLifecycle.LifecycleFlags | modules/core/test/com/haulmont/cuba/core/EntityStateTest.java:48-160 | the new, managed and detached flags after creation, persist, find, commit, rollback and merge |
| EntityLifecycle.ReserializedFlags | modules/core/test/com/haulmont/cuba/core/EntityStateTest.java:163-253 | reserializing keeps a new instance new and makes a managed one detached |
| EntityLifecycle.UnmanagedAccess | modules/core/test/com/haulmont/cuba/core/EclipseLinkDetachedTest.java:80-206 | an unmanaged instance reads an attribute iff it is in memory, failing as unfetched iff it has a fetch group |
| EntityLifecycle.ManagedAccess | modules/core/test/com/haulmont/cuba/core/UnfetchedAttributeTest.java:58-90 | a managed instance reads every attribute, loading it from the row, and keeps it in memory |
| EntityLifecycle.ReserializedKeepsAccess | modules/core/test/com/haulmont/cuba/core/EclipseLinkDetachedTest.java:110-136 | reserializing does not change what an unmanaged instance can read |
| EntityLifecycle.ReferenceIdWithFetchGroup | modules/core/test/com/haulmont/cuba/core/GetReferenceIdTest.java:63-131 | with a fetch group the reference id is loaded iff the reference is in it |
| EntityLifecycle.TransactionsScenario | modules/core/test/com/haulmont/cuba/core/EntityStateTest.java:48-80 | a created user is new, then new and managed once persisted, then detached once committed, and the stored row holds the name, login and group set |
| EntityLifecycle.TransactionsRenameScenario | modules/core/test/com/haulmont/cuba/core/EntityStateTest.java:88-160 | a stored user is found managed (the find and the later query are one read), its group read, detached by the commit, renamed, managed again by the merge, and the last commit stores the new name with the old login and group |
| EntityLifecycle.SerializationScenario | modules/core/test/com/haulmont/cuba/core/EntityStateTest.java:163-253 | the flags the test asserts on reserialized users |
| EntityLifecycle.RollbackNewScenario | modules/core/test/com/haulmont/cuba/core/EntityStateTest.java:256-288 | a user without a group fails to commit and is new again |
| EntityLifecycle.RollbackLoadedScenario | modules/core/test/com/haulmont/cuba/core/EntityStateTest.java:291-308 | a found user is detached once the transaction ends |
| EntityLifecycle.DetachedWithoutViewScenario | modules/core/test/com/haulmont/cuba/core/EclipseLinkDetachedTest.java:80-136 | without a view, the detached user's name is readable and its group and roles are not |
| EntityLifecycle.DetachedPartialScenario | modules/core/test/com/haulmont/cuba/core/EclipseLinkDetachedTest.java:139-206 | with the partial view of the login, only the login is readable; name and group are unfetched |
| EntityLifecycle.PartialMergeScenario | modules/core/test/com/haulmont/cuba/core/EclipseLinkDetachedTest.java:209-288 | a login changed on a partial user is merged and stored with the stored name |
| EntityLifecycle.ReferenceIdFetchGroupScenario | modules/core/test/com/haulmont/cuba/core/GetReferenceIdTest.java:63-131 | the group id is loaded exactly when the partial view holds the group |
| EntityLifecycle.ReferenceIdWithoutViewScenario | modules/core/test/com/haulmont/cuba/core/GetReferenceIdTest.java:134-166 | without a view the group id is loaded inside the transaction and fails after it |
| EntityLifecycle.UnfetchedAttributeScenario | modules/core/test/com/haulmont/cuba/core/UnfetchedAttributeTest.java:58-125 | a group outside a non-partial view, read lazily or set while managed, is there after commit and reserialization |
| EntityLifecycle.Entity.constructor | modules/core/test/com/haulmont/cuba/core/EntityStateTest.java:58-61 | a new user instance is new, neither managed nor detached |
| EntityLifecycle.Entity.Find | modules/core/test/com/haulmont/cuba/core/EntityStateTest.java:88-100 | null iff there is no row; otherwise a fresh managed, not new instance |
| EntityLifecycle.Entity.Persist | modules/core/test/com/haulmont/cuba/core/EntityStateTest.java:67-71 | the instance becomes managed and stays new |
| EntityLifecycle.Entity.Load | modules/core/test/com/haulmont/cuba/core/UnfetchedAttributeTest.java:58-90 | the attribute comes into memory, joining the fetch group |
| EntityLifecycle.Entity.Get | modules/core/test/com/haulmont/cuba/core/EclipseLinkDetachedTest.java:80-107 | the getter reads as the access rules say |
| EntityLifecycle.Entity.Set | modules/core/test/com/haulmont/cuba/core/UnfetchedAttributeTest.java:93-125 | the setter writes as the access rules say |
| EntityLifecycle.Entity.End | modules/core/test/com/haulmont/cuba/core/EntityStateTest.java:291-308 | the end of a transaction without a commit rolls the instance back |
| EntityLifecycle.Entity.Commit | modules/core/test/com/haulmont/cuba/core/EntityStateTest.java:73-80 | commit writes the loaded attributes over the row and detaches, or rolls back on a null required column |
| EntityLifecycle.Entity.Merge | modules/core/test/com/haulmont/cuba/core/EntityStateTest.java:111-124 | a managed instance merges into itself, another into a fresh managed copy |
| EntityLifecycle.Entity.Reserialize | modules/core/test/com/haulmont/cuba/core/EntityStateTest.java:163-253 | a fresh copy, no longer managed; the instance itself is unchanged |
| EntityLifecycle.Entity.ReferenceId | modules/core/test/com/haulmont/cuba/core/GetReferenceIdTest.java:63-166 | getReferenceId as the reference rules say |
| EntityLifecycle.CreateUserTest | modules/core/test/com/haulmont/cuba/core/EntityStateTest.java:48-80 | a created, persisted and committed user is stored with the name, login and group set |
| EntityLifecycle.RenameUserTest | modules/core/test/com/haulmont/cuba/core/EntityStateTest.java:88-160 | a stored user, found, renamed while detached, merged and committed, is stored with the new name and the old login and group |
| EntityLifecycle.RollbackNewTest | modules/core/test/com/haulmont/cuba/core/EntityStateTest.java:256-288 | without a group the commit fails and the persisted user is new, unmanaged and not detached |

## Left out

- Declarations of the Java classes, logging, dependency injection and the
  listeners and events the registries fire are not modelled.
- The DataService, the S3 client, the MBean server, the class loader, the
  message bundles, the icon registry, the theme constants and the date service
  are parameters.
- The `Lookups` value of the dialog facets stands for the message bundles, the
  icon registry and the theme constants; enum `valueOf` is membership in a set
  of names.
- Exception messages are not modelled, except where a contract names the
  failing file or property.
- dom4j parsing and rendering are the `parse` and `render` parameters.
- XML comments, namespaces and processing instructions are not modelled.
- Presentations: presentations are values compared by id. A stored
  presentation is taken to be the object the caller also holds, so changes the
  caller makes through that shared object are not modelled.
- Presentations: the `loaded` flag of the registry stands for the null check on
  the table. The component and user of the DataService query are fixed when the
  registry is constructed.
- EntitySnapshots: a `Map<Class, Class>` is a sequence of entries in its
  iteration order. Classes are their canonical names.
- EntitySnapshots.ProcessViewXml: the before class name is replaced
  literally, but `replaceAll` reads it as a regular expression. A canonical
  name's dots then match any character, so text that differs from the name
  only where the name has a dot is rewritten by the source and not by the
  model.
- EntitySnapshots.ReplaceAllWithoutOccurrence: holds for the model's literal
  replacement only; the source's `replaceAll` also rewrites text in which a
  dot of the name stands for another character.
- EntitySnapshots.ReplaceAllSelf: holds for the model's literal replacement
  only; `"comXaXB".replaceAll("com.a.B", "com.a.B")` gives "com.a.B".
- EntitySnapshots.IdentityMappingKeepsView: holds for the model's literal
  replacement only; in the source an entry mapping a class to itself can
  still rewrite text that matches its name read as a regular expression.
- EntitySnapshots.CreateSnapshot: the persisting transaction and the JSON
  serializers are not modelled; the serialized texts are arguments.
- S3Storage: the S3 requests are recorded as uploads. The eTag is a function of
  the bytes. S3 requests never fail in the model: `saveFile` catches an
  SdkClientException, prints it and returns normally, so `saveStream` still
  returns the size; that swallowing is not modelled.
- S3Storage.SaveFileParts: requires a positive chunk size. The configured
  size times 1024 is an int product that can wrap, and the source does not
  check the result: with 0 the loop uploads empty parts and never advances,
  and with a negative size `new byte[end - start]` throws
  NegativeArraySizeException. Neither case is modelled.
- S3Storage.SaveStream: how the stream is read is not modelled. Only its
  outcome, bytes or an IOException, is an argument.
- DateField: dates are integers. The client's formatter and parser are
  parameters. Widget painting, styles and GWT event plumbing are not modelled.
- DbUpdate: the cluster role, the configuration and each store's `DbUpdater`
  are inputs. The update and check actions are a log of what was asked.
- UiComponents: descriptors are given already parsed. The reading of jar
  manifests and of web-module resources is a list of descriptors.
- ConnectionPoolSpecificFactory: text inserted into a pattern by
  `String.format` is matched literally. The registered MBean names are a
  sequence in the set's iteration order.
- ConnectionPoolSpecificFactory: the factory's own `getPoolObjectName` is
  modelled by `ConnectionPoolUtils.FindFirstMatching`, which does the same
  search.
- ConnectionPoolSpecificFactory: a null configured pool name is not
  modelled; the pool name is a string.
- DialogFacets: `DialogFacetProvider` repeats the attribute loaders of
  `AbstractDialogFacetProvider`, and both are modelled by the same
  `CommonSettings`.
- EntityLifecycle: the ORM is not part of this model. The entity rules are
  those the ORM tests assert, and a transaction is seen through its effect on
  one entity. A failed commit is modelled as a NOT NULL required column. Lazy
  collections hold references, not loaded entities.
- EntityLifecycle.LifecycleFlags: a reference is read as the referenced
  entity's id, so the new, managed and detached flags of the entity a
  reference read returns are not stated.
- EntityLifecycle.TransactionsRenameScenario: for the same reason, the flags
  the test asserts of the group read through the found user are not stated;
  the flags stated after the read are the user's.
- Presentations.PresentationRegistry.GetPresentationByName: names are compared
  ignoring case with ASCII case folding only, so a non-ASCII name Java's
  `equalsIgnoreCase` matches ("ВИД" and "вид") is not matched. The same holds
  for `parseBoolean` in DialogFacets; for the text "true" it makes no
  difference.
- S3Storage.FileName: a blank extension is one of ASCII whitespace only; an
  extension of other Unicode whitespace that `isBlank` treats as blank is
  appended by the model.
- DateField.FillPlaceholders: requires the date text to hold no '_'. When the
  date text has "__" where a placeholder is, the source's loop puts the same
  "__" back and never ends; a formatted date has no '_', and date texts with
  '_' are outside the model.
- ConnectionPoolSpecificFactory.GetConnectionPoolInfo: the TOMCAT and HIKARI
  patterns are a parameter; `AsWritten` is the program, and `Corrected` the
  patterns the Findings table gives as intended.

## Findings

| source | as written | input that shows it | evidently intended | confidence | as-written member | corrected member |
|---|---|---|---|---|---|---|
| modules/core/src/com/haulmont/cuba/core/app/filestorage/amazon/AmazonS3FileStorage.java:96 | `filePosition + chunkSize` is an int sum that can wrap | 8 MiB chunks over an array of Integer.MAX_VALUE - 8 bytes (any length above 255·2^23 does): the 256th chunk's end lies before its start, `end - start` wraps back to 8 MiB and `System.arraycopy` at :119 throws IndexOutOfBoundsException | the chunk end is `min(position + chunkSize, length)` without overflow | not executed | S3Storage.WrittenChunkEnd | S3Storage.ChunkEnd |
| modules/core/src/com/haulmont/cuba/core/sys/connectionpool/ConnectionPoolSpecificFactory.java:87-94 | the web context fills `name=` and the data source fills `context=/` | web context "app", data source "jdbc/CubaDS": the pool's MBean is not matched | the data source is the pool's name and the web context its context | not executed | ConnectionPoolSpecificFactory.TomcatPatternAsWritten | ConnectionPoolSpecificFactory.TomcatPattern |
| modules/core/src/com/haulmont/cuba/core/sys/connectionpool/ConnectionPoolSpecificFactory.java:96-98 | the package is spelled `tcom.zaxxer.hikari` | any HikariCP pool's MBean name `com.zaxxer.hikari:type=Pool (...)` | the package `com.zaxxer.hikari` | not executed | ConnectionPoolSpecificFactory.HikariPatternAsWritten | ConnectionPoolSpecificFactory.HikariPattern |
