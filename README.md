# Gift-certificate persistence and services, modelled in Dafny

This project models the gift-certificate core of a Spring/Hibernate REST
service. That core is:

- two JDBC DAOs: `GiftCertificateDaoImpl`, and the older `GiftCertificateDao` with its result-set extractor;
- the Hibernate repository `GiftCertificateRepositoryImpl`;
- the configurable sort map `GiftCertificateSortMap`;
- the base `AbstractDao`;
- the three services in front of them: `GiftCertificateServiceImpl`, `JpaGiftCertificateServiceImpl` and the older `GiftCertificateService`.

Modules, one per part of the program:

- `Entities`: tags and certificates as values, and as the mutable beans the services and DAOs update in place (`Tag`, `GiftCertificate`). It also holds the layers' exceptions and the prepared-statement arguments.
- `Wrappers`: `Option` and the `Outcome` result type. Every Java exception of the core is a `Failure` carrying an `Error`, never a precondition.
- `JavaStrings`: the `String`/`StringJoiner` operations the core relies on (`join`, `replaceFirst`, `split` at a literal character, `toUpperCase`, `equalsIgnoreCase`), and a count of a text's `?` placeholders.
- `SortPatterns`: the three sort-token regular expressions as explicit predicates. The `.` in all three is unescaped, so it stands for any one character except a line terminator.
- `Store`: the three tables (`gift_certificate`, `tag`, `gift_certificate_tag`):
  - their integrity invariant;
  - one pure function per SQL statement, and the two update merge rules (COALESCE and the ORM setter chain);
  - the `Database` class, which holds the tables as fields and applies one statement per method.
- `AbstractDao`: `getOffset` in 32-bit two's-complement arithmetic, and the defaults that always throw.
- `DaoImpl`: the JDBC DAO. Its `findAll` assembles SQL text plus positional arguments, and its read-write operations run their statement sequences against `Database`.
- `LegacyDao`: the older DAO:
  - the `SortBy`/`SortDir` `ORDER BY`, which appends `ASC` to the caller's holder;
  - the argument preparation of `findAll`;
  - the extractor loop that folds LEFT JOIN rows into certificates;
  - `findById` and `update` through that extractor.
- `SortMap`: `GiftCertificateSortMap`: its pattern built from the configured keys, and `getSortMap`.
- `Repository`: the Hibernate repository:
  - the criteria query of `findAll` (orders, restrictions, paging) and its meaning as a selection;
  - resolve-or-create of tags;
  - create, ORM-merge update, updateDuration and delete, over the same `Database`.
- `ServiceRules`, `ServiceImpl`, `JpaService`, `LegacyService`: the date stamping and tag-name checks the services do before delegating.

Behaviour the proofs bring out:

- **Extra `?` placeholder.** The JDBC DAO's sort pattern accepts any character between field and direction. So `name?asc` is accepted and copied into `ORDER BY` verbatim. The statement then has one `?` more than it has arguments (`DaoImpl.QuestionSeparatorUnbound`). For every other input, the statement's `?` characters and its arguments match one to one (`DaoImpl.PlaceholdersMatchArguments`). That is a count of characters, not of the parameters a driver binds.
- **Other separators.** All three validators accept a separator other than `.`. Then both `split("\\.")` users fail at index 1 (`Repository.OtherSeparatorOrder`, `SortMap.OtherSeparatorToken`).
- **Updates without tags.** The JPA service turns a null tag set into an empty one. The repository replaces the association set whenever one is given, so a JPA update without tags detaches every tag (`JpaService.JpaGiftCertificateServiceImpl.Update`). The JDBC update keeps the associations for an empty set (`ServiceImpl.GiftCertificateServiceImpl.Update`, `Store.EmptyTagSetDiverges`).
- **Preset ids.** Both Hibernate entities have an IDENTITY-generated primitive `long` id, so `persist` treats a bean with a non-zero id as detached and throws. A create whose certificate carries an id, or any create or update whose tag carries an id and a name that is not stored yet, fails with the tables unchanged (`Repository.NamedTagsFailDetached`, `Repository.PresetIdRefused`). The JDBC DAOs ignore the bean's id.
- **Empty names.** The two merge rules disagree on an empty name: COALESCE writes it, the ORM ignores it (`Store.MergesDisagreeOnEmptyName`).

Nothing here is executed. The database, the clock and the result sets of the JDBC queries are not part of the model. Instead:

- the tables are an in-memory store;
- "now" is a parameter;
- the rows a query returns are a parameter (`rows`).

## Model

| member | source | states |
|---|---|---|
| AbstractDao.Wrap | dao/src/main/java/com/epam/esm/dao/sql/AbstractDao.java:36-38 | the Java `int` result of an exact value: in 32-bit range and congruent to it modulo 2^32 |
| AbstractDao.GetOffset | dao/src/main/java/com/epam/esm/dao/sql/AbstractDao.java:36-38 | throws `NullPointerException` exactly when page or size is null; otherwise the offset is `page * size` modulo 2^32 |
| AbstractDao.WrapInRange | dao/src/main/java/com/epam/esm/dao/sql/AbstractDao.java:36-38 | an in-range value is unchanged by the 32-bit wrap |
| AbstractDao.OffsetExact | dao/src/main/java/com/epam/esm/dao/sql/AbstractDao.java:36-38 | when the product fits in an `int` the offset is exactly `page * size`, and non-negative for a non-negative page and size |
| AbstractDao.OffsetOverflows | dao/src/main/java/com/epam/esm/dao/sql/AbstractDao.java:36-38 | page 65536 with size 32768 gives the offset `Integer.MIN_VALUE` |
| AbstractDao.Create | dao/src/main/java/com/epam/esm/dao/sql/AbstractDao.java:11-14 | the default create throws `DaoUnsupportedOperationException` |
| AbstractDao.FindById | dao/src/main/java/com/epam/esm/dao/sql/AbstractDao.java:16-19 | the default findById throws `DaoUnsupportedOperationException` |
| AbstractDao.FindAll | dao/src/main/java/com/epam/esm/dao/sql/AbstractDao.java:21-24 | the default findAll throws `DaoUnsupportedOperationException` |
| AbstractDao.Update | dao/src/main/java/com/epam/esm/dao/sql/AbstractDao.java:26-29 | the default update throws `DaoUnsupportedOperationException` |
| AbstractDao.Delete | dao/src/main/java/com/epam/esm/dao/sql/AbstractDao.java:31-34 | the default delete throws `DaoUnsupportedOperationException` |
| AbstractDao.DefaultsAlwaysThrow | dao/src/main/java/com/epam/esm/dao/sql/AbstractDao.java:11-34 | no default data operation succeeds: none is a silent no-op |
| JavaStrings.PlaceholdersAppend | dao/src/main/java/com/epam/esm/dao/sql/GiftCertificateDaoImpl.java:114-126 | the placeholders of concatenated text are the sum of the parts' |
| JavaStrings.PlaceholdersJoin | dao/src/main/java/com/epam/esm/dao/sql/GiftCertificateDaoImpl.java:140-149 | text joined with a placeholder-free delimiter has exactly its parts' placeholders |
| JavaStrings.SumPlaceholdersRepeat | dao/src/main/java/com/epam/esm/dao/sql/GiftCertificateDaoImpl.java:141-147 | `n` copies of a fragment hold `n` times its placeholders |
| JavaStrings.ReplaceFirstAfter | dao/src/main/java/com/epam/esm/dao/sql/GiftCertificateDaoImpl.java:161 | `replaceFirst` leaves a prefix without the character untouched and acts on the rest |
| JavaStrings.ReplaceFirstAbsent | dao/src/main/java/com/epam/esm/dao/sql/GiftCertificateDaoImpl.java:161 | `replaceFirst` of an absent character is the identity |
| JavaStrings.DropTrailingEmpty | hibernate/src/main/java/com/epam/esm/repository/GiftCertificateRepositoryImpl.java:127 | `split` with limit 0 keeps a prefix of the pieces: only trailing empty strings are dropped |
| JavaStrings.SplitPair | hibernate/src/main/java/com/epam/esm/repository/GiftCertificateRepositoryImpl.java:127 | `f.d` with no other separator and a non-empty `d` splits into exactly `[f, d]` |
| JavaStrings.SplitAbsent | hibernate/src/main/java/com/epam/esm/repository/GiftCertificateRepositoryImpl.java:127 | without the separator the split is the whole token, so there is no second piece |
| JavaStrings.SplitAllAround | dao/src/main/java/com/epam/esm/util/GiftCertificateSortMap.java:45 | splitting at one separator splits the two sides independently |
| JavaStrings.SplitAllJoin | dao/src/main/java/com/epam/esm/util/GiftCertificateSortMap.java:20-22 | splitting a join at its one-character delimiter gives back the parts when no part holds the delimiter |
| SortPatterns.SortTokenShape | dao/src/main/java/com/epam/esm/dao/sql/GiftCertificateDaoImpl.java:69 | every allowed field, any one non-terminator character and a lower-case direction form a matching token |
| SortPatterns.DirectionIsSuffix | dao/src/main/java/com/epam/esm/dao/sql/GiftCertificateDaoImpl.java:69 | the direction of a matching token is determined by its last characters |
| SortPatterns.FieldDetermined | hibernate/src/main/java/com/epam/esm/repository/GiftCertificateRepositoryImpl.java:27 | only one field alternative can match a given token |
| SortPatterns.DaoPatternMessage | dao/src/main/java/com/epam/esm/dao/sql/GiftCertificateDaoImpl.java:159 | the JDBC exception carries the pattern without `^(` and `){1}$`: the three column alternatives, the unescaped `.` and the two directions |
| SortPatterns.RepositoryPatternMessage | hibernate/src/main/java/com/epam/esm/repository/GiftCertificateRepositoryImpl.java:125 | the Hibernate exception carries the pattern without `^(` and `){1}$`: the three attribute alternatives, the unescaped `.` and the two directions |
| SortPatterns.ConfiguredFields | dao/src/main/java/com/epam/esm/util/GiftCertificateSortMap.java:20-22 | the configured pattern always has at least one field alternative (the empty one when there are no keys) |
| SortPatterns.DaoTokenExamples | dao/src/main/java/com/epam/esm/dao/sql/GiftCertificateDaoImpl.java:158 | the JDBC validator accepts `name.asc` and `create_date.desc` |
| SortPatterns.DaoAnySeparator | dao/src/main/java/com/epam/esm/dao/sql/GiftCertificateDaoImpl.java:158 | the JDBC validator also accepts `name-asc`, `name?asc` and `name'asc`: the separator is any character |
| SortPatterns.DaoTokenCounterexamples | dao/src/main/java/com/epam/esm/dao/sql/GiftCertificateDaoImpl.java:158 | the JDBC validator rejects `name.ASC`, `bogus.asc`, `createDate.asc`, a line break as separator and the empty token |
| SortPatterns.RepositoryTokenExamples | hibernate/src/main/java/com/epam/esm/repository/GiftCertificateRepositoryImpl.java:124 | the Hibernate validator accepts attribute names with any separator and rejects column names |
| SortPatterns.ConfiguredPatternExamples | dao/src/main/java/com/epam/esm/util/GiftCertificateSortMap.java:20-22 | the configured pattern accepts the empty token, a bare `.asc` with no keys, and rejects a field without a direction |
| Store.CoalesceExtremes | dao/src/main/java/com/epam/esm/dao/sql/GiftCertificateDaoImpl.java:43-50 | an all-null update keeps the stored row; a fully given one replaces it |
| Store.MergesIdempotent | hibernate/src/main/java/com/epam/esm/repository/GiftCertificateRepositoryImpl.java:157-174 | repeating either merge changes nothing more |
| Store.OrmMergeIsCoalesceOfFilled | hibernate/src/main/java/com/epam/esm/repository/GiftCertificateRepositoryImpl.java:157-174 | the ORM setter chain is COALESCE with empty name and description read as null |
| Store.MergesDisagreeOnEmptyName | hibernate/src/main/java/com/epam/esm/repository/GiftCertificateRepositoryImpl.java:157-159 | an empty name overwrites the stored one under COALESCE and is ignored by the ORM merge |
| Store.WithTagGrows | dao/src/main/java/com/epam/esm/dao/sql/GiftCertificateDaoImpl.java:57-58 | the idempotent tag insert keeps the store consistent, keeps known ids and gives a new name a fresh id |
| Store.WithTagKeeps | dao/src/main/java/com/epam/esm/dao/sql/GiftCertificateDaoImpl.java:57-58 | a tag insert adds at most its name and changes no other name's id, link or certificate |
| Store.ResolveTagsGrows | hibernate/src/main/java/com/epam/esm/repository/GiftCertificateRepositoryImpl.java:52-68 | resolve-or-create keeps every known id, gives each new name an unused id and keeps the store consistent |
| Store.ResolveTagsKeepsRows | hibernate/src/main/java/com/epam/esm/repository/GiftCertificateRepositoryImpl.java:52-68 | resolving tags touches neither certificates nor associations |
| Store.ResolveTagsNames | hibernate/src/main/java/com/epam/esm/repository/GiftCertificateRepositoryImpl.java:52-68 | after resolving, the stored names are the earlier ones plus the resolved ones |
| Store.LinkTagsIds | dao/src/main/java/com/epam/esm/dao/sql/GiftCertificateDaoImpl.java:203-209 | the ids the association loop assigns depend only on the tag table it starts from |
| Store.LinkTagsIsResolveThenLink | dao/src/main/java/com/epam/esm/dao/sql/GiftCertificateDaoImpl.java:203-209 | the association loop is resolve-or-create followed by one association per name |
| Store.LinkTagsFacts | dao/src/main/java/com/epam/esm/dao/sql/GiftCertificateDaoImpl.java:203-209 | the loop keeps the store consistent and pairs the certificate with the id of every name, reusing existing ids |
| Store.InsertedConsistent | dao/src/main/java/com/epam/esm/dao/sql/GiftCertificateDaoImpl.java:81-94 | the insert takes an unused id and keeps the store consistent |
| Store.ResolveTagsInserted | hibernate/src/main/java/com/epam/esm/repository/GiftCertificateRepositoryImpl.java:43-46 | resolving tags before or after inserting the row gives the same tables |
| Store.CreatesAgree | hibernate/src/main/java/com/epam/esm/repository/GiftCertificateRepositoryImpl.java:39-50 | the ORM create and the JDBC create leave the same consistent tables, with the new row under the next id |
| Store.WithRecordConsistent | dao/src/main/java/com/epam/esm/dao/sql/GiftCertificateDaoImpl.java:179 | the row update keeps consistency and the set of ids |
| Store.WithoutLinksConsistent | dao/src/main/java/com/epam/esm/dao/sql/GiftCertificateDaoImpl.java:181 | deleting a certificate's associations keeps consistency and leaves none for it |
| Store.SqlUpdatedLinks | dao/src/main/java/com/epam/esm/dao/sql/GiftCertificateDaoImpl.java:179-183 | after the JDBC update the associations are exactly the new names when some were given, the old ones otherwise; other certificates keep theirs |
| Store.EmptyTagSetDiverges | hibernate/src/main/java/com/epam/esm/repository/GiftCertificateRepositoryImpl.java:175-178 | an empty set detaches every tag under the ORM update and none under the JDBC update |
| Store.ResolveTagsWithoutLinks | hibernate/src/main/java/com/epam/esm/repository/GiftCertificateRepositoryImpl.java:175-177 | resolving tags and deleting one certificate's associations commute |
| Store.OrmUpdatedConsistent | hibernate/src/main/java/com/epam/esm/repository/GiftCertificateRepositoryImpl.java:149-182 | replacing the associations keeps the tables consistent and resolves every given name |
| Store.OrmUpdatedFacts | hibernate/src/main/java/com/epam/esm/repository/GiftCertificateRepositoryImpl.java:149-182 | after the ORM update the associations are exactly the given names whenever a set was given, even an empty one; other certificates keep theirs |
| Store.DurationUpdatedFacts | dao/src/main/java/com/epam/esm/dao/sql/GiftCertificateDaoImpl.java:51-53 | only the duration and the last-update date of that one row change |
| Store.WithoutCertificateFacts | dao/src/main/java/com/epam/esm/dao/sql/GiftCertificateDaoImpl.java:211-214 | delete removes the row and, by the assumed cascade, its associations, and nothing else; a missing id changes nothing |
| Store.GoodPrefix | dao/src/main/java/com/epam/esm/dao/sql/GiftCertificateDaoImpl.java:204-207 | how many tags the association loop handles before a null tag or null name stops it |
| Store.Database.InsertCertificate | dao/src/main/java/com/epam/esm/dao/sql/GiftCertificateDaoImpl.java:82-94 | the row is stored under the next id, which is returned |
| Store.Database.InsertTagIfAbsent | dao/src/main/java/com/epam/esm/dao/sql/GiftCertificateDaoImpl.java:57-58 | the tag table gains the name unless it has it |
| Store.Database.InsertLink | dao/src/main/java/com/epam/esm/dao/sql/GiftCertificateDaoImpl.java:54 | the association table gains the pair |
| Store.Database.WriteRecord | dao/src/main/java/com/epam/esm/dao/sql/GiftCertificateDaoImpl.java:43-50 | the row of an existing id is replaced; a missing id matches no row |
| Store.Database.DeleteLinks | dao/src/main/java/com/epam/esm/dao/sql/GiftCertificateDaoImpl.java:55-56 | every association of the certificate is removed |
| Store.Database.DeleteCertificate | dao/src/main/java/com/epam/esm/dao/sql/GiftCertificateDaoImpl.java:60 | the row is removed, and its associations with it by the assumed cascade |
| Store.Database.InsertLinks | hibernate/src/main/java/com/epam/esm/repository/GiftCertificateRepositoryImpl.java:177 | the join rows Hibernate writes for a tag set are added |
| Store.Database.Rollback | dao/src/main/java/com/epam/esm/dao/sql/GiftCertificateDaoImpl.java:80 | a failing transactional operation restores the tables it started with |
| DaoImpl.OrderItemShape | dao/src/main/java/com/epam/esm/dao/sql/GiftCertificateDaoImpl.java:161 | an accepted token puts into ORDER BY `gc.`, an allow-listed column, one character (a space for `.`) and a direction, and nothing else |
| DaoImpl.OrderItemPlaceholders | dao/src/main/java/com/epam/esm/dao/sql/GiftCertificateDaoImpl.java:161 | an accepted token adds a `?` exactly when its separator is `?` |
| DaoImpl.OrderItemsPlaceholders | dao/src/main/java/com/epam/esm/dao/sql/GiftCertificateDaoImpl.java:157-162 | the ORDER BY items hold one `?` per `?`-separated token |
| DaoImpl.SelectPlaceholders | dao/src/main/java/com/epam/esm/dao/sql/GiftCertificateDaoImpl.java:32 | the select has no placeholder |
| DaoImpl.TagsFirstPlaceholders | dao/src/main/java/com/epam/esm/dao/sql/GiftCertificateDaoImpl.java:33-35 | the tag subquery head has no placeholder |
| DaoImpl.TagsLastPlaceholders | dao/src/main/java/com/epam/esm/dao/sql/GiftCertificateDaoImpl.java:36 | the `HAVING COUNT(*) = ?` tail has one placeholder |
| DaoImpl.SearchPlaceholders | dao/src/main/java/com/epam/esm/dao/sql/GiftCertificateDaoImpl.java:37 | the search fragment has one placeholder |
| DaoImpl.LimitOffsetPlaceholders | dao/src/main/java/com/epam/esm/dao/sql/GiftCertificateDaoImpl.java:41 | the paging clause has two placeholders |
| DaoImpl.JoinerPiecesPlaceholders | dao/src/main/java/com/epam/esm/dao/sql/GiftCertificateDaoImpl.java:38-68 | joiner prefixes, delimiters and suffixes have none; `QUESTION_MARK` has one |
| DaoImpl.JoinedPlaceholders | dao/src/main/java/com/epam/esm/dao/sql/GiftCertificateDaoImpl.java:116-124 | a joiner's text has its parts' placeholders when its fixed pieces have none |
| DaoImpl.TagsFragmentPlaceholders | dao/src/main/java/com/epam/esm/dao/sql/GiftCertificateDaoImpl.java:139-150 | the tag fragment has one placeholder per name plus one for the count guard |
| DaoImpl.WherePlaceholders | dao/src/main/java/com/epam/esm/dao/sql/GiftCertificateDaoImpl.java:116-123 | the WHERE clause has exactly as many placeholders as filter arguments |
| DaoImpl.OrderByPlaceholders | dao/src/main/java/com/epam/esm/dao/sql/GiftCertificateDaoImpl.java:152-164 | the ORDER BY clause has one placeholder per `?`-separated token |
| DaoImpl.SearchStatementPlaceholders | dao/src/main/java/com/epam/esm/dao/sql/GiftCertificateDaoImpl.java:109-132 | the statement's `?` count is its argument count plus the number of `?`-separated sort tokens |
| DaoImpl.PlaceholdersMatchArguments | dao/src/main/java/com/epam/esm/dao/sql/GiftCertificateDaoImpl.java:109-132 | without `?` separators, the statement's `?` characters and its arguments match one to one |
| DaoImpl.QuestionSeparatorUnbound | dao/src/main/java/com/epam/esm/dao/sql/GiftCertificateDaoImpl.java:158-161 | the accepted token `name?asc` yields a statement with one placeholder more than arguments |
| DaoImpl.NoFilterNoWhere | dao/src/main/java/com/epam/esm/dao/sql/GiftCertificateDaoImpl.java:116-128 | with no active filter there is no WHERE and the arguments are just size and offset |
| DaoImpl.SearchStatementArgs | dao/src/main/java/com/epam/esm/dao/sql/GiftCertificateDaoImpl.java:115-128 | the arguments are the tag names in order, their count, `%search%`, then size and offset |
| DaoImpl.BothFiltersJoined | dao/src/main/java/com/epam/esm/dao/sql/GiftCertificateDaoImpl.java:116-123 | with both filters the WHERE clause is the tag fragment, `AND `, then the search fragment |
| DaoImpl.GiftCertificateDaoImpl.GetSearchQuery | dao/src/main/java/com/epam/esm/dao/sql/GiftCertificateDaoImpl.java:134-137 | returns the one-placeholder search fragment and appends `%search%` to the arguments |
| DaoImpl.GiftCertificateDaoImpl.PrepareTagsQuery | dao/src/main/java/com/epam/esm/dao/sql/GiftCertificateDaoImpl.java:139-150 | throws `InvalidTagNameException` exactly when a name is null or empty; otherwise the fragment for that many names, with the names and their count appended to the arguments |
| DaoImpl.GiftCertificateDaoImpl.GetOrderByQuery | dao/src/main/java/com/epam/esm/dao/sql/GiftCertificateDaoImpl.java:152-164 | empty for a null or empty list; throws `InvalidSortRequestException` with the stripped pattern exactly when a token is null or invalid; otherwise the ORDER BY clause of the tokens in order |
| DaoImpl.GiftCertificateDaoImpl.FindAll | dao/src/main/java/com/epam/esm/dao/sql/GiftCertificateDaoImpl.java:109-132 | succeeds exactly for servable parameters, with the specified statement; otherwise the tag error wins over the sort error; a null holder becomes a default one |
| DaoImpl.GiftCertificateDaoImpl.FilterQuery | dao/src/main/java/com/epam/esm/dao/sql/GiftCertificateDaoImpl.java:115-124 | the joiner's text for the active filters, empty when none is active, with the tag names, their count and the search pattern as arguments in that order; a bad tag name throws first |
| DaoImpl.GiftCertificateDaoImpl.TagFilter | dao/src/main/java/com/epam/esm/dao/sql/GiftCertificateDaoImpl.java:118-120 | no fragment and no arguments without tags; otherwise the tag fragment with the names and their count, or `InvalidTagNameException` exactly when a name is bad |
| DaoImpl.GiftCertificateDaoImpl.AddTag | dao/src/main/java/com/epam/esm/dao/sql/GiftCertificateDaoImpl.java:204-207 | the name is inserted unless known, its id is read back into the tag, and the pair is linked |
| DaoImpl.GiftCertificateDaoImpl.AddTags | dao/src/main/java/com/epam/esm/dao/sql/GiftCertificateDaoImpl.java:203-209 | a null set throws; otherwise the tags before the first bad one are resolved and linked, and the bad one's error is returned |
| DaoImpl.GiftCertificateDaoImpl.Create | dao/src/main/java/com/epam/esm/dao/sql/GiftCertificateDaoImpl.java:79-97 | succeeds exactly when price, duration, both dates and every tag and name are non-null; then the row plus associations for the next id; otherwise the tables are unchanged; on success every tag bean holds its stored id, and after a rolled-back association loop the beans before the first bad tag keep the ids read back before the rollback |
| DaoImpl.GiftCertificateDaoImpl.FindById | dao/src/main/java/com/epam/esm/dao/sql/GiftCertificateDaoImpl.java:99-107 | the stored row without tags, or `DaoWrongIdException(id, "GiftCertificate")` for a missing id |
| DaoImpl.GiftCertificateDaoImpl.Update | dao/src/main/java/com/epam/esm/dao/sql/GiftCertificateDaoImpl.java:166-186 | missing id gives a wrong-id error with the tag beans untouched; otherwise the COALESCE merge, the associations replaced only for a non-empty set, and the row re-read; on success every tag bean keeps its name and holds the stored id of that name; on failure the beans before the first bad tag hold the ids resolution gave them |
| DaoImpl.GiftCertificateDaoImpl.Relink | dao/src/main/java/com/epam/esm/dao/sql/GiftCertificateDaoImpl.java:180-183 | for a non-empty set the associations are deleted and rebuilt by the association loop, succeeding exactly when every tag has a name, with the first bad tag's error otherwise |
| DaoImpl.GiftCertificateDaoImpl.UpdateDuration | dao/src/main/java/com/epam/esm/dao/sql/GiftCertificateDaoImpl.java:188-197 | missing id gives a wrong-id error; otherwise only duration and last-update date change and the row is re-read |
| DaoImpl.GiftCertificateDaoImpl.Delete | dao/src/main/java/com/epam/esm/dao/sql/GiftCertificateDaoImpl.java:211-214 | removes the row, and its associations by the assumed cascade; a missing id is not an error |
| LegacyDao.Dedup | dao/src/main/java/com/epam/esm/dao/sql/GiftCertificateDao.java:179-191 | insertion-ordered distinct elements: same members, no repeats |
| LegacyDao.DedupFirstSeen | dao/src/main/java/com/epam/esm/dao/sql/GiftCertificateDao.java:179-191 | the distinct elements appear in order of first occurrence |
| LegacyDao.DedupSnoc | dao/src/main/java/com/epam/esm/dao/sql/GiftCertificateDao.java:197 | adding an element already present changes nothing; a new one goes last |
| LegacyDao.ExtractedStep | dao/src/main/java/com/epam/esm/dao/sql/GiftCertificateDao.java:180-199 | one more row leaves other ids alone, creates its id from itself or adds only its tag |
| LegacyDao.ExtractData | dao/src/main/java/com/epam/esm/dao/sql/GiftCertificateDao.java:178-201 | the extractor loop returns exactly the specified fold of the rows |
| LegacyDao.GroupedKeys | dao/src/main/java/com/epam/esm/dao/sql/GiftCertificateDao.java:178-201 | the extractor's key order is the distinct ids by first appearance, and its keys are the ids seen |
| LegacyDao.GroupedValue | dao/src/main/java/com/epam/esm/dao/sql/GiftCertificateDao.java:178-201 | each id's map entry is the certificate its rows define |
| LegacyDao.ExtractedIds | dao/src/main/java/com/epam/esm/dao/sql/GiftCertificateDao.java:179-200 | the result's ids are the distinct row ids in first-seen order |
| LegacyDao.OnePerId | dao/src/main/java/com/epam/esm/dao/sql/GiftCertificateDao.java:179-200 | one certificate per distinct id, each from the rows, ordered by first appearance |
| LegacyDao.EveryIdExtracted | dao/src/main/java/com/epam/esm/dao/sql/GiftCertificateDao.java:181-191 | every row's id has its certificate in the result |
| LegacyDao.LaterRowsKeepScalars | dao/src/main/java/com/epam/esm/dao/sql/GiftCertificateDao.java:182-192 | later rows never change the scalar fields set by an id's first row |
| LegacyDao.TagsOfMembers | dao/src/main/java/com/epam/esm/dao/sql/GiftCertificateDao.java:193-198 | the tags are exactly those of the id's rows with a non-null tag name |
| LegacyDao.ExtractedTags | dao/src/main/java/com/epam/esm/dao/sql/GiftCertificateDao.java:193-198 | a certificate's tags have no repeats, are exactly its rows' non-null tags, and are empty when all its rows have null tag columns |
| LegacyDao.JoinedExtraction | dao/src/main/java/com/epam/esm/dao/sql/GiftCertificateDao.java:101-109 | re-reading a stored certificate through the LEFT JOIN gives its columns and exactly its linked tags |
| LegacyDao.RenderedPrefix | dao/src/main/java/com/epam/esm/dao/sql/GiftCertificateDao.java:129-132 | how many sort keys render before a null key or a null direction stops the loop |
| LegacyDao.ItemDirection | dao/src/main/java/com/epam/esm/dao/sql/GiftCertificateDao.java:130-131 | a key past the supplied directions renders as `column ASC`; one within them renders with its own direction |
| LegacyDao.AppendedAscendingInvisible | dao/src/main/java/com/epam/esm/dao/sql/GiftCertificateDao.java:125-131 | the `ASC` entries the loop appends to the holder never change what renders |
| LegacyDao.QueryPlaceholders | dao/src/main/java/com/epam/esm/dao/sql/GiftCertificateDao.java:36-46 | the search statement has three placeholders |
| LegacyDao.SearchPlaceholdersMatch | dao/src/main/java/com/epam/esm/dao/sql/GiftCertificateDao.java:116-118 | with its ORDER BY, the statement has exactly as many placeholders as the three bound arguments |
| LegacyDao.GiftCertificateDao.GetOrderByQuery | dao/src/main/java/com/epam/esm/dao/sql/GiftCertificateDao.java:121-134 | empty for a null or empty key list; otherwise the rendered clause, or a null-pointer exception; defaults a null direction list and appends one `ASC` per key handled |
| LegacyDao.GiftCertificateDao.FindAll | dao/src/main/java/com/epam/esm/dao/sql/GiftCertificateDao.java:111-134 | the statement with its ORDER BY, and the arguments tag name, tag name, `%search%` (or `%`); a null holder binds nulls and `%`; the caller's holder keeps its tag name, search and keys, and its direction list gains one `ASC` per key rendered |
| LegacyDao.GiftCertificateDao.FindById | dao/src/main/java/com/epam/esm/dao/sql/GiftCertificateDao.java:101-109 | no rows gives `DaoWrongIdException(id, "GiftCertificate")`; otherwise the first certificate the extractor yields |
| LegacyDao.GiftCertificateDao.Update | dao/src/main/java/com/epam/esm/dao/sql/GiftCertificateDao.java:136-156 | succeeds exactly for a stored id, a linkable set and a non-empty re-read; the newer DAO's wrong-id and tag errors; a re-read without rows throws wrong-id and the transaction rolls back; on success the COALESCE and non-empty-set replacement, and a re-read through the extractor with exactly the linked tags |
| SortMap.GiftCertificateSortMap.constructor | dao/src/main/java/com/epam/esm/util/GiftCertificateSortMap.java:15-23 | keeps its own copy of the configuration and builds the pattern from the keys in iteration order |
| SortMap.PatternAlternatives | dao/src/main/java/com/epam/esm/util/GiftCertificateSortMap.java:20-22 | the pattern's alternatives are exactly the configured keys, or the empty field when there are none |
| SortMap.GiftCertificateSortMap.GetConfigMap | dao/src/main/java/com/epam/esm/util/GiftCertificateSortMap.java:29-33 | a fresh map with the configuration's entries |
| SortMap.GiftCertificateSortMap.GetSortMap | dao/src/main/java/com/epam/esm/util/GiftCertificateSortMap.java:35-50 | empty for a null list; otherwise the specified fold of the tokens |
| SortMap.SortMapFailure | dao/src/main/java/com/epam/esm/util/GiftCertificateSortMap.java:40-46 | fails exactly when some token is rejected |
| SortMap.SortMapFirstFailure | dao/src/main/java/com/epam/esm/util/GiftCertificateSortMap.java:40-46 | the exception is the first rejected token's |
| SortMap.SortMapKeys | dao/src/main/java/com/epam/esm/util/GiftCertificateSortMap.java:44-46 | the result's keys are exactly the fields of the tokens that set an entry |
| SortMap.SortMapLastWins | dao/src/main/java/com/epam/esm/util/GiftCertificateSortMap.java:46 | a repeated field keeps the upper-cased direction of its last token |
| SortMap.EmptyTokenSkipped | dao/src/main/java/com/epam/esm/util/GiftCertificateSortMap.java:44 | an empty token anywhere changes nothing |
| SortMap.SortMapPrefixFailure | dao/src/main/java/com/epam/esm/util/GiftCertificateSortMap.java:40-43 | once a prefix of the tokens throws, the later tokens do not matter |
| SortMap.DotToken | dao/src/main/java/com/epam/esm/util/GiftCertificateSortMap.java:45-46 | `field.direction` maps the field to the upper-cased direction |
| SortMap.OtherSeparatorToken | dao/src/main/java/com/epam/esm/util/GiftCertificateSortMap.java:45-46 | a non-`.` separator passes the pattern and then fails at `sortByPair[1]` |
| Repository.OrdersOfFacts | hibernate/src/main/java/com/epam/esm/repository/GiftCertificateRepositoryImpl.java:121-135 | one order per token, in input order, exactly when every token is accepted |
| Repository.OrdersFirstFailure | hibernate/src/main/java/com/epam/esm/repository/GiftCertificateRepositoryImpl.java:121-135 | otherwise the exception is the first rejected token's |
| Repository.CollectFacts | hibernate/src/main/java/com/epam/esm/repository/GiftCertificateRepositoryImpl.java:121-135 | filling the order array succeeds exactly when every step does, and then holds the steps' values in order |
| Repository.AcceptedSplit | hibernate/src/main/java/com/epam/esm/repository/GiftCertificateRepositoryImpl.java:127-133 | an accepted token that splits at `.` at all splits into exactly an attribute and a lower-case direction |
| Repository.AcceptedParts | hibernate/src/main/java/com/epam/esm/repository/GiftCertificateRepositoryImpl.java:124 | an accepted token is an attribute, one separator character and a direction |
| Repository.DirectionCases | hibernate/src/main/java/com/epam/esm/repository/GiftCertificateRepositoryImpl.java:128-133 | exactly one of the two case-insensitive comparisons holds for a direction |
| Repository.DotTokenOrder | hibernate/src/main/java/com/epam/esm/repository/GiftCertificateRepositoryImpl.java:124-133 | `attribute.direction` orders by that attribute in that direction |
| Repository.OtherSeparatorOrder | hibernate/src/main/java/com/epam/esm/repository/GiftCertificateRepositoryImpl.java:124-128 | a non-`.` separator passes the pattern and then fails at `splitSort[1]` |
| Repository.CollectPrefixFailure | hibernate/src/main/java/com/epam/esm/repository/GiftCertificateRepositoryImpl.java:123-126 | once a prefix of the tokens throws, the later tokens do not matter |
| Repository.SelectionMeaning | hibernate/src/main/java/com/epam/esm/repository/GiftCertificateRepositoryImpl.java:84-110 | a certificate is selected exactly when it has every requested tag and, for a non-empty search, its name or its description contains the term |
| Repository.FindAllFacts | hibernate/src/main/java/com/epam/esm/repository/GiftCertificateRepositoryImpl.java:70-117 | succeeds exactly for a present holder with accepted tokens and valid names; a null holder throws; sort errors come before tag errors; orders follow the tokens; first result is the offset and max results the size |
| Repository.GiftCertificateRepositoryImpl.TokenOrder | hibernate/src/main/java/com/epam/esm/repository/GiftCertificateRepositoryImpl.java:124-133 | one turn of the loop yields the token's specified order or its exception |
| Repository.GiftCertificateRepositoryImpl.GetCriteriaOrders | hibernate/src/main/java/com/epam/esm/repository/GiftCertificateRepositoryImpl.java:118-136 | the array loop fills exactly the specified orders, or throws the first token's exception |
| Repository.GiftCertificateRepositoryImpl.FindAll | hibernate/src/main/java/com/epam/esm/repository/GiftCertificateRepositoryImpl.java:70-117 | the method's query or exception is exactly the specified one |
| Repository.GiftCertificateRepositoryImpl.ReferenceTag | hibernate/src/main/java/com/epam/esm/repository/GiftCertificateRepositoryImpl.java:53-66 | a stored name's id is adopted; a new name is persisted under the next id when the bean's id is the unsaved value 0, and otherwise `persist` refuses the detached bean with nothing changed |
| Repository.GiftCertificateRepositoryImpl.CreateOrReferenceTags | hibernate/src/main/java/com/epam/esm/repository/GiftCertificateRepositoryImpl.java:52-68 | the tags before the loop's stopping point (`Repository.OrmPrefix`) hold the stored ids of their names and the tables are the resolution of those names; it succeeds exactly when the loop gets through, and otherwise fails with the stopping tag's error (null tag, detached bean, or null name) |
| Repository.GiftCertificateRepositoryImpl.ResolveEach | hibernate/src/main/java/com/epam/esm/repository/GiftCertificateRepositoryImpl.java:53-67 | the loop over the set's tags meets the same contract, stated over the tags' values and the tables it starts from |
| Repository.GiftCertificateRepositoryImpl.Create | hibernate/src/main/java/com/epam/esm/repository/GiftCertificateRepositoryImpl.java:39-50 | succeeds exactly when the tag loop gets through and the certificate's own id is 0; on success the row under the next id with one join row per tag; otherwise the tables are unchanged, the tag loop's error comes first and a preset certificate id gives `DetachedEntity`, while the beans before the stopping tag keep the ids resolution gave them |
| Repository.GiftCertificateRepositoryImpl.Persist | hibernate/src/main/java/com/epam/esm/repository/GiftCertificateRepositoryImpl.java:46 | a bean whose id is already set is refused as detached with nothing changed; otherwise the row takes the next id and the join rows of its resolved set are written |
| Repository.GiftCertificateRepositoryImpl.WriteJoinRows | hibernate/src/main/java/com/epam/esm/repository/GiftCertificateRepositoryImpl.java:177 | the join rows added are exactly the certificate's associations for the names |
| Repository.GiftCertificateRepositoryImpl.FindById | hibernate/src/main/java/com/epam/esm/repository/GiftCertificateRepositoryImpl.java:138-147 | the stored certificate, or `DaoWrongIdException` for a missing id |
| Repository.GiftCertificateRepositoryImpl.Update | hibernate/src/main/java/com/epam/esm/repository/GiftCertificateRepositoryImpl.java:149-182 | missing id gives a wrong-id error; otherwise the ORM merge, and any non-null set resolves and replaces the associations wholesale; a new tag name on a bean with a preset id fails with the tables unchanged; on success every given tag bean keeps its name and holds the stored id of that name |
| Repository.GiftCertificateRepositoryImpl.UpdateDuration | hibernate/src/main/java/com/epam/esm/repository/GiftCertificateRepositoryImpl.java:184-197 | missing id gives a wrong-id error; otherwise only duration and last-update date change |
| Repository.GiftCertificateRepositoryImpl.Delete | hibernate/src/main/java/com/epam/esm/repository/GiftCertificateRepositoryImpl.java:199-209 | missing id gives a wrong-id error with the tables unchanged; otherwise row and associations are removed |
| Repository.PairsAreLinks | hibernate/src/main/java/com/epam/esm/repository/GiftCertificateRepositoryImpl.java:177 | the join rows of resolved tags are the store's associations of their names |
| Repository.OrmPrefixFrom | hibernate/src/main/java/com/epam/esm/repository/GiftCertificateRepositoryImpl.java:53-67 | from the i-th tag on, the loop gets past named tags; it stops at a tag that is null or unnamed, or whose name is new and whose id is not 0 |
| Repository.OrmPrefix | hibernate/src/main/java/com/epam/esm/repository/GiftCertificateRepositoryImpl.java:53-67 | the loop's reach never exceeds the JDBC loop's; a fresh bean stops it only by a missing name, and a named bean only when its id is set and its name was not stored |
| Repository.OrmPrefixIsGoodPrefix | hibernate/src/main/java/com/epam/esm/repository/GiftCertificateRepositoryImpl.java:53-67 | when every bean's id is 0 or its name is stored, the loop gets exactly as far as the JDBC association loop |
| Repository.NamedTagsFailDetached | hibernate/src/main/java/com/epam/esm/repository/GiftCertificateRepositoryImpl.java:65 | once every tag has a name, the only failure left is `persist` refusing a bean with a preset id and a new name |
| Repository.PresetIdRefused | hibernate/src/main/java/com/epam/esm/repository/GiftCertificateRepositoryImpl.java:61-66 | a new name on a bean with id 3 stops the loop; a stored name, or an earlier fresh bean with the same name, lets it through |
| ServiceRules.CreateStampFacts | service/src/main/java/com/epam/esm/service/GiftCertificateServiceImpl.java:34-39 | each null date becomes now independently; supplied dates and other fields are kept; stamping is idempotent; the insert then needs only price and duration |
| ServiceRules.UpdateStampFacts | service/src/main/java/com/epam/esm/service/GiftCertificateServiceImpl.java:46-48 | only a null last-update date becomes now; the creation date is never touched; idempotent |
| ServiceRules.StampedUpdateStoresDate | service/src/main/java/com/epam/esm/service/GiftCertificateServiceImpl.java:46-50 | both merges store the last-update date the service chose and leave the creation date to the merge rule |
| ServiceRules.NullNameCount | service/src/main/java/com/epam/esm/service/GiftCertificateServiceImpl.java:63 | throws on a null element; otherwise zero exactly when every tag has a name |
| ServiceRules.NameChecksAgree | hibernate/src/main/java/com/epam/esm/service/JpaGiftCertificateServiceImpl.java:61-64 | both checks pass exactly the sets whose every tag has a name; the JDBC check throws NullPointer exactly for a null element; the JPA check always throws its own exception; a passing set gets through the association loop |
| ServiceRules.EmptyNamePasses | service/src/main/java/com/epam/esm/service/GiftCertificateServiceImpl.java:63 | an empty tag name is not rejected by either check |
| ServiceImpl.GiftCertificateServiceImpl.CheckTags | service/src/main/java/com/epam/esm/service/GiftCertificateServiceImpl.java:58-66 | a null set becomes empty; the result is the name check of the defaulted set |
| ServiceImpl.GiftCertificateServiceImpl.Create | service/src/main/java/com/epam/esm/service/GiftCertificateServiceImpl.java:32-42 | stamps with the instance's now; a failed check returns before the DAO; succeeds exactly when the check passes and price and duration are present |
| ServiceImpl.GiftCertificateServiceImpl.Update | service/src/main/java/com/epam/esm/service/GiftCertificateServiceImpl.java:44-51 | stamps only the last-update date; succeeds exactly when the check passes and the id exists; stores the chosen date; an empty or null set keeps the associations |
| ServiceImpl.GiftCertificateServiceImpl.PrepareUpdate | service/src/main/java/com/epam/esm/service/GiftCertificateServiceImpl.java:46-49 | the stamped record, the defaulted set and the check's verdict |
| ServiceImpl.GiftCertificateServiceImpl.UpdateDuration | service/src/main/java/com/epam/esm/service/GiftCertificateServiceImpl.java:53-56 | the new last-update date is the instance's now |
| JpaService.JpaGiftCertificateServiceImpl.CheckTags | hibernate/src/main/java/com/epam/esm/service/JpaGiftCertificateServiceImpl.java:56-65 | a null set becomes empty; a null element or a null name is refused with `ServiceWrongTagNameException` |
| JpaService.JpaGiftCertificateServiceImpl.PrepareCreate | hibernate/src/main/java/com/epam/esm/service/JpaGiftCertificateServiceImpl.java:31-38 | both dates stamped from one clock reading, then the check |
| JpaService.JpaGiftCertificateServiceImpl.Create | hibernate/src/main/java/com/epam/esm/service/JpaGiftCertificateServiceImpl.java:29-40 | succeeds exactly when the check passes, the certificate's id is 0 and no new tag name comes on a bean with a preset id, with the ORM create of the stamped record; a failed check gives `ServiceWrongTagNameException`, any other failure `DetachedEntity`; a failure leaves the tables unchanged |
| JpaService.JpaGiftCertificateServiceImpl.PrepareUpdate | hibernate/src/main/java/com/epam/esm/service/JpaGiftCertificateServiceImpl.java:44-47 | the last-update date stamped from a fresh reading, then the check |
| JpaService.JpaGiftCertificateServiceImpl.Update | hibernate/src/main/java/com/epam/esm/service/JpaGiftCertificateServiceImpl.java:42-49 | succeeds exactly when the check passes, the id exists and no new tag name comes on a bean with a preset id; after a passing check a missing id gives the wrong-id error and a preset id `DetachedEntity`; the associations become exactly the given names; a request without tags detaches every tag |
| JpaService.JpaGiftCertificateServiceImpl.UpdateDuration | hibernate/src/main/java/com/epam/esm/service/JpaGiftCertificateServiceImpl.java:51-54 | the new last-update date is this call's reading |
| LegacyService.GiftCertificateService.CheckTags | service/src/main/java/com/epam/esm/service/GiftCertificateService.java:50-55 | a null set throws; otherwise the JDBC name check, changing nothing |
| LegacyService.GiftCertificateService.Create | service/src/main/java/com/epam/esm/service/GiftCertificateService.java:29-39 | stamps with the instance's now; a null set or failed check stops before the DAO; succeeds exactly when the set is non-null, the check passes and price and duration are present |
| LegacyService.GiftCertificateService.Update | service/src/main/java/com/epam/esm/service/GiftCertificateService.java:41-48 | stamps only the last-update date; a null set or failed check stops before the DAO; succeeds exactly when the set passes, the id is stored and the re-read finds rows; any failure leaves the tables unchanged |

## Left out

- Real SQL, JDBC and Hibernate execution is not modelled. The effect of each statement is a function on in-memory tables. The rows a JDBC read returns are a parameter of `LegacyDao.GiftCertificateDao.FindById` and `LegacyDao.GiftCertificateDao.Update`.
- SQL lexing is not modelled: placeholders are counted as `?` characters. A separator that opens a string literal or a comment is accepted by the JDBC sort pattern (`name'asc`, `SortPatterns.DaoAnySeparator`). It would hide the `?` of `LIMIT ? OFFSET ?` from the driver, so those two arguments could not be bound, although `DaoImpl.PlaceholdersMatchArguments` still counts them.
- `LIKE` is modelled as plain containment. SQL wildcards inside the search term (`%`, `_`) and collation or case-insensitive matching are not modelled.
- `Tag_.NAME` equality and `GROUP BY`/`HAVING COUNT(*)` are not given a meaning for the JDBC statement. Only the Hibernate criteria query is given a selection meaning (`Repository.SelectionMeaning`).
- Transactions are modelled as atomic: a failing operation restores the tables it started with. That includes the auto-increment counters, which a real database would not roll back. A real `INSERT … ON DUPLICATE KEY UPDATE` of a name that is already stored may also use up an auto-increment value; the model advances the tag counter only for a new name. Either way, ids are only promised to be fresh.
- The schema is not part of this model. The JDBC delete statement names only `gift_certificate`; the model assumes the join table's foreign key is declared `ON DELETE CASCADE`, so the certificate's association rows go with it (`Store.WithoutCertificate`). Without that cascade the statement would fail on a certificate that has tags.
- Bean Validation on the Hibernate entities is not modelled. The entities declare `@NotBlank` on the certificate's name and description and on the tag name, and `@NotNull` on price and duration (hibernate model `GiftCertificate.java:39-51`, `Tag.java:26`). Whether a validation provider checks them at persist or flush is decided by build configuration, which is not part of this model. The members below therefore store what those constraints would reject:
- `Repository.GiftCertificateRepositoryImpl.Create`: its success condition ignores those constraints, so a certificate with a null price or duration, a blank name or description, or a tag named `""` is stored.
- `Repository.GiftCertificateRepositoryImpl.Update`: its success condition ignores those constraints, so a blank merged name or description, or a blank tag name, is stored.
- `JpaService.JpaGiftCertificateServiceImpl.Create`: its success condition ignores those constraints; a violation they would report at persist is not a failure here.
- `JpaService.JpaGiftCertificateServiceImpl.Update`: its success condition ignores those constraints; a violation they would report at flush is not a failure here.
- Hibernate's flush order, lazy loading and session cache are not modelled. Join rows are written when the certificate is persisted or updated.
- `Repository.GiftCertificateRepositoryImpl.Update` does not return the lazily loaded stored tag set when no set was given; the returned value carries the request's null set instead.
- A tag with a null name reaching `INSERT INTO tag` fails as a storage error (`StorageFailure`). The driver's actual exception type is not modelled.
- Duplicate join rows are absorbed, because the association table is a set. The schema is not part of this model: a real table without a key on the pair would hold the row twice, and one with such a key would fail the second `INSERT INTO gift_certificate_tag` instead.
- `LocalDateTime` and `Timestamp` conversion are not modelled: a date is an opaque integer. Each clock reading is a parameter: the services' constructor argument or the JPA service's per-call `now`.
- `Character.toUpperCase` and `equalsIgnoreCase` beyond ASCII letters are not modelled.
- Regular-expression metacharacters in configured sort-map keys are not interpreted; keys are compared literally and must not contain `|`.
- The iteration order of a `HashMap`/`HashSet` is a parameter: `keyOrder` for the sort-map keys, and the `tags` sequence for a tag set.
- A tag set stores its tags as a sequence in iteration order. Deduplication of equal `Tag` beans by `equals`/`hashCode` is not modelled; a `LinkedHashSet.add` in the extractor is modelled by `LegacyDao.Dedup`.
- `RequestParametersHolder` in this snapshot has no `sortList`, `tagName`, `sortByList`, `sortDirList` or `getOffset`. The parameters the DAOs read are modelled as a record and a small holder class. A fresh holder's page and size are the parameters `defaultPage` and `defaultSize` of `DaoImpl.GiftCertificateDaoImpl.FindAll`.
- The Hibernate repository's negative-paging checks inside `setFirstResult`/`setMaxResults` are not modelled: first result and max results are recorded as given.
- `SortDir.java` is not part of this model; its constants are taken to be `ASC` and `DESC`, as their use as SQL keywords requires. `SortBy`'s column names are `gc.name` and `gc.create_date`.
- The older DAO's `create`, `addTags` and `delete` issue the same statements as the newer DAO's. They are modelled once, in `DaoImpl`, which `LegacyDao.GiftCertificateDao` delegates to; only `update` and `findById`, which differ in the re-read, have their own members.
- The entity's `addTag`, which the extractor calls, is commented out in this snapshot; the extractor is modelled as adding to the certificate's tag set.
- The services' `findById`, `findAll` and `delete` pass straight through `AbstractService` to the DAO or repository and have no members of their own. The same holds for the `AbstractRepository` stubs.
- Concurrency and request scoping are not modelled.
