# Ignite Spring Data query resolution and the "none" condition builder, in Dafny

This project models two pieces of decision logic.

The first is Apache Ignite's Spring Data 2.0 repository factory,
`IgniteRepositoryFactory`. It has three parts:

- **isFieldQuery** decides from the text alone whether a declared SQL string
  is a fields (projection) query or a whole-entity query. It uses two
  whole-string Java regex matches: `(?i)^SELECT.*` and
  `(?i)^SELECT\s+(?:\w+\.)?+\*.*`.
- **The query lookup strategy** binds a repository method to one outcome:
  its declared `@Query`, a query generated from the method, or an
  `IllegalStateException`. The choice depends on the lookup key (CREATE,
  USE_DECLARED_QUERY, CREATE_IF_NOT_FOUND) and the annotation's `value`,
  `textQuery`, `dynamicQuery` and `forceFieldsQuery`.
- **The registry** holds two maps filled by `getRepositoryMetadata`:
  repository interface to cache name, and repository interface to Ignite
  instance. `getRepositoryCache` looks the cache up from them.

The second is the full-text search builder `NoneConditionBuilder`. Its
`build()` turns the inherited `boost` into a new `NoneCondition`, the
condition that matches no document.

Files:

- `wrappers.dfy`: `Option` (Java's null) and `Result` (Java's exceptions).
- `java_text.dfy`: the regex classes `\s` and `\w`, the line terminators
  that `.` excludes, ASCII-only case folding, and Spring's
  `StringUtils.hasText`.
- `field_query.dfy`: both patterns written as languages over strings. The
  second pattern's possessive group is stated as the regex semantics demand.
  A left-to-right matcher follows how java.util.regex runs the pattern, and
  a proof shows the matcher accepts exactly that language. The file also
  holds isFieldQuery and its properties.
- `query_lookup.dfy`: the lookup strategy's decision table as a pure
  function. It also holds the classification rule (text flag, then force
  flag, then the lexical test) as an independent reference definition.
- `repository_factory.dfy`: the class `IgniteRepositoryFactory` with its two
  map fields, `getRepositoryMetadata` as a method, `getRepositoryCache`, and
  the strategy's lambda combined with the cache lookup.
- `none_condition.dfy`: the builder and the condition as classes. `Build`
  returns a fresh object.

## Model

| member | source | states |
|---|---|---|
| FieldQuery.IsFieldQuery | modules/spring-data-2.0/src/main/java/org/apache/ignite/springdata20/repository/support/IgniteRepositoryFactory.java:238-240 | isFieldQuery itself: a case-insensitive SELECT with a line-terminator-free rest that the star-select matcher rejects; what this means is stated by `IsFieldQueryMeansPatterns` and the lemmas below it |
| FieldQuery.IsFieldQueryMeansPatterns | modules/spring-data-2.0/src/main/java/org/apache/ignite/springdata20/repository/support/IgniteRepositoryFactory.java:238-240 | isFieldQuery holds iff the string is a case-insensitive SELECT with no line terminator after it, and is not in the language of `SELECT\s+(?:\w+\.)?+\*.*` |
| FieldQuery.SelectStarMatcherCorrect | modules/spring-data-2.0/src/main/java/org/apache/ignite/springdata20/repository/support/IgniteRepositoryFactory.java:239 | the left-to-right matcher (greedy `\s+`, committed qualifier, star, line-terminator-free rest) accepts exactly the strings of the possessive star-select pattern, whichever split of `\s+` backtracking tries |
| FieldQuery.SpaceRunEnd | modules/spring-data-2.0/src/main/java/org/apache/ignite/springdata20/repository/support/IgniteRepositoryFactory.java:239 | greedy `\s+`: the end of the longest run of `\s` from a position, all spaces before it and none at it |
| FieldQuery.WordRunEnd | modules/spring-data-2.0/src/main/java/org/apache/ignite/springdata20/repository/support/IgniteRepositoryFactory.java:239 | greedy `\w+`: the end of the longest run of `\w` from a position, all word characters before it and none at it |
| FieldQuery.QualifierEnd | modules/spring-data-2.0/src/main/java/org/apache/ignite/springdata20/repository/support/IgniteRepositoryFactory.java:239 | what `(?:\w+\.)?+` consumes: exactly the unique qualifier when one matches, nothing otherwise |
| FieldQuery.StarSelectIsNotFieldQuery | modules/spring-data-2.0/src/main/java/org/apache/ignite/springdata20/repository/support/IgniteRepositoryFactory.java:239 | every string beginning with `SELECT`, whitespace, at most one `ident.`, then `*` is not a fields query, whatever follows |
| FieldQuery.FieldQueryIffNoStarPrefix | modules/spring-data-2.0/src/main/java/org/apache/ignite/springdata20/repository/support/IgniteRepositoryFactory.java:239 | for a SELECT string with no line terminator, isFieldQuery iff it has no (greedy) star prefix: the possessive group changes nothing here |
| FieldQuery.NotSelectIsNotFieldQuery | modules/spring-data-2.0/src/main/java/org/apache/ignite/springdata20/repository/support/IgniteRepositoryFactory.java:239 | a string not beginning with SELECT, including the empty string, is never a fields query |
| FieldQuery.StarSelectExample | modules/spring-data-2.0/src/main/java/org/apache/ignite/springdata20/repository/support/IgniteRepositoryFactory.java:239 | `select * from Person` is not a fields query |
| FieldQuery.QualifiedStarSelectExample | modules/spring-data-2.0/src/main/java/org/apache/ignite/springdata20/repository/support/IgniteRepositoryFactory.java:239 | `select p.* from Person p` is not a fields query |
| FieldQuery.ProjectionExample | modules/spring-data-2.0/src/main/java/org/apache/ignite/springdata20/repository/support/IgniteRepositoryFactory.java:239 | `SELECT name, age FROM Person` is a fields query |
| FieldQuery.UnspacedStarExample | modules/spring-data-2.0/src/main/java/org/apache/ignite/springdata20/repository/support/IgniteRepositoryFactory.java:239 | `SELECT*` is a fields query, because `\s+` needs at least one space |
| FieldQuery.DoublyQualifiedStarExample | modules/spring-data-2.0/src/main/java/org/apache/ignite/springdata20/repository/support/IgniteRepositoryFactory.java:239 | `SELECT a.b.* FROM Person` is a fields query, because only one qualifier may precede the star |
| FieldQuery.MultiLineProjectionIsNotFieldQuery | modules/spring-data-2.0/src/main/java/org/apache/ignite/springdata20/repository/support/IgniteRepositoryFactory.java:239 | a projection with a line break after SELECT is not a fields query, because `.` excludes line terminators |
| JavaText.HasText | modules/spring-data-2.0/src/main/java/org/apache/ignite/springdata20/repository/support/IgniteRepositoryFactory.java:202-206 | Spring's `StringUtils.hasText`: some character of the string is not Java whitespace; an empty or all-blank `value` does not declare a query |
| QueryLookup.AnnotatedQuery | modules/spring-data-2.0/src/main/java/org/apache/ignite/springdata20/repository/support/IgniteRepositoryFactory.java:205-210 | `annotatedIgniteQuery` and the `IgniteQuery` built from it; its content is stated by `DeclaredPathShape` and `DeclaredFlagsFollowClassify` |
| QueryLookup.LookupQuery | modules/spring-data-2.0/src/main/java/org/apache/ignite/springdata20/repository/support/IgniteRepositoryFactory.java:202-227 | the lambda's decision among the declared query, the generated one and the refusal; stated by `DeclaredPathIff`, `MissingDeclaredQueryIff`, `GeneratedPathIff` and `CreateIgnoresAnnotation` |
| QueryLookup.DeclaredPathIff | modules/spring-data-2.0/src/main/java/org/apache/ignite/springdata20/repository/support/IgniteRepositoryFactory.java:202-216 | the declared path is taken iff the annotation is present, has text, textQuery or dynamicQuery, and the key is not CREATE |
| QueryLookup.DeclaredPathShape | modules/spring-data-2.0/src/main/java/org/apache/ignite/springdata20/repository/support/IgniteRepositoryFactory.java:205-215 | on the declared path a dynamic query has a null IgniteQuery and a null config. Otherwise both are built from the annotation: its text, its text flag, the method's options, and a fourth flag that is false |
| QueryLookup.DeclaredFlagsFollowClassify | modules/spring-data-2.0/src/main/java/org/apache/ignite/springdata20/repository/support/IgniteRepositoryFactory.java:208-210 | the declared query's field flag is set iff the ordered rule says fields, and its text flag iff the rule says text; the two are never both set |
| QueryLookup.FlagPrecedence | modules/spring-data-2.0/src/main/java/org/apache/ignite/springdata20/repository/support/IgniteRepositoryFactory.java:209 | for every string, textQuery overrides forceFieldsQuery and forceFieldsQuery alone makes it a fields query; without either flag `select *` is an entity query |
| QueryLookup.MissingDeclaredQueryIff | modules/spring-data-2.0/src/main/java/org/apache/ignite/springdata20/repository/support/IgniteRepositoryFactory.java:219-223 | the strategy refuses iff the key is USE_DECLARED_QUERY and the annotation is missing or declares nothing |
| QueryLookup.GeneratedPathIff | modules/spring-data-2.0/src/main/java/org/apache/ignite/springdata20/repository/support/IgniteRepositoryFactory.java:211-227 | the generator is used iff the key is CREATE, or the key is CREATE_IF_NOT_FOUND and nothing is declared |
| QueryLookup.CreateIgnoresAnnotation | modules/spring-data-2.0/src/main/java/org/apache/ignite/springdata20/repository/support/IgniteRepositoryFactory.java:211 | under CREATE the decision is the same whatever the annotation, and it is always the generator |
| RepositoryFactory.CheckRepository | modules/spring-data-2.0/src/main/java/org/apache/ignite/springdata20/repository/support/IgniteRepositoryFactory.java:136-145 | the four assertions pass iff the interface is non-null, extends IgniteRepository, and has a @RepositoryConfig whose cacheName has text; the result is that annotation; every failure is an IllegalArgumentException |
| RepositoryFactory.IgniteRepositoryFactory.constructor | modules/spring-data-2.0/src/main/java/org/apache/ignite/springdata20/repository/support/IgniteRepositoryFactory.java:54-66 | a new factory has both maps empty and satisfies the registry invariant |
| RepositoryFactory.IgniteRepositoryFactory.GetRepositoryMetadata | modules/spring-data-2.0/src/main/java/org/apache/ignite/springdata20/repository/support/IgniteRepositoryFactory.java:135-152 | a failed assertion leaves both maps unchanged. Otherwise exactly the interface's cache entry is set to its cacheName. An Ignite resolution failure then leaves the Ignite map as it was, so an earlier entry for the interface stays; success sets the interface's Ignite entry. The invariant (every mapped interface is valid, Ignite keys are a subset of cache keys) is kept |
| RepositoryFactory.IgniteRepositoryFactory.RepositoryCache | modules/spring-data-2.0/src/main/java/org/apache/ignite/springdata20/repository/support/IgniteRepositoryFactory.java:155-173 | a cache is returned iff the interface has an Ignite instance and either autoCreateCache is set or the cache exists. The cache returned is the registered cache on the registered instance. A missing cache is an IllegalStateException naming cache and interface; a missing instance is a null dereference |
| RepositoryFactory.IgniteRepositoryFactory.ResolveQuery | modules/spring-data-2.0/src/main/java/org/apache/ignite/springdata20/repository/support/IgniteRepositoryFactory.java:197-228 | the lambda yields the declared query iff the decision is the declared path and the cache lookup succeeds, and then carries exactly the decision's IgniteQuery and config. It yields a generated query iff the decision is to generate and both the generator and the cache lookup succeed; that query is the generator's and the config is the annotation's. Every resolved query's cache is the one the cache lookup returns. Every failure is the refusal, the generator's failure or the cache lookup's failure |
| RepositoryFactory.DeclaredPathIgnoresGenerator | modules/spring-data-2.0/src/main/java/org/apache/ignite/springdata20/repository/support/IgniteRepositoryFactory.java:201-216 | on the declared path the generator's outcome makes no difference; the declared query is returned iff the cache lookup succeeds, and otherwise the cache lookup's failure is |
| RepositoryFactory.UseDeclaredNeverGenerates | modules/spring-data-2.0/src/main/java/org/apache/ignite/springdata20/repository/support/IgniteRepositoryFactory.java:219-223 | USE_DECLARED_QUERY with nothing declared fails with IllegalStateException, and the result is the same whatever the generator would return |
| RepositoryFactory.CreateAlwaysGenerates | modules/spring-data-2.0/src/main/java/org/apache/ignite/springdata20/repository/support/IgniteRepositoryFactory.java:211-227 | under CREATE the result is never a declared query. It is the generator's query, the generator's failure or the cache lookup's failure |
| RepositoryFactory.ResolvedQueryHasRegisteredCache | modules/spring-data-2.0/src/main/java/org/apache/ignite/springdata20/repository/support/IgniteRepositoryFactory.java:155-172 | every resolved query carries the registered Ignite instance, and the cache named by the interface's annotation |
| NoneConditions.NoneCondition.constructor | modules/hk-lucene-builder/src/main/java/org/hawkore/ignite/lucene/search/condition/builder/NoneConditionBuilder.java:43 | a condition records the boost it is given |
| NoneConditions.NoneConditionBuilder.constructor | modules/hk-lucene-builder/src/main/java/org/hawkore/ignite/lucene/search/condition/builder/NoneConditionBuilder.java:33-34 | the no-argument constructor leaves the inherited boost unset (null) |
| NoneConditions.NoneConditionBuilder.Build | modules/hk-lucene-builder/src/main/java/org/hawkore/ignite/lucene/search/condition/builder/NoneConditionBuilder.java:36-44 | build() returns a fresh condition whose boost is the builder's current boost. It has no precondition, cannot fail, and modifies nothing |
| NoneConditions.RebuildAfterBoostChange | modules/hk-lucene-builder/src/main/java/org/hawkore/ignite/lucene/search/condition/builder/NoneConditionBuilder.java:39-44 | two builds with a boost change in between give two distinct new conditions, each with the boost it was built with |

## Behaviour worth knowing

- isFieldQuery is false for any SELECT with a line terminator after it, even
  a projection such as `SELECT name\nFROM Person`, because `.` does not
  match a line terminator. `MultiLineProjectionIsNotFieldQuery` shows the
  case.
- USE_DECLARED_QUERY fails not only when the annotation is absent but also
  when it has blank text and neither textQuery nor dynamicQuery set. A text
  or dynamic query with an empty string counts as declared.
- At most one of a declared query's field and text flags is set. A
  whole-entity declared query has neither, a dynamic one has no IgniteQuery
  at all, and the fourth IgniteQuery flag is always false on this path.
- Under CREATE the declared IgniteQuery is still built, then dropped.
  Nothing observable comes of that here.

## Left out

- igniteForRepoConfig (Spring bean lookup, `Ignition.ignite` and
  `Ignition.start`) is a function parameter of `GetRepositoryMetadata`. It
  returns an Ignite instance or an error.
- IgniteQueryGenerator.generateSql is the `generated` parameter of
  `ResolveQuery`: whatever it would return or throw. IgniteQueryGenerator.getOptions
  is the method's `options` tag and is assumed not to throw.
  DynamicQueryConfig.fromQueryAnnotation is the tag `FromQueryAnnotation`,
  including for a null annotation.
- IgniteRepositoryQuery, the repository metadata, the query factory, the named
  queries and the evaluation context provider just pass through to the result.
  They are not modelled.
- getTargetRepository, getTargetRepositoryViaReflection, getEntityInformation
  and getRepositoryBaseClass are reflection and proxy wiring. They are not
  modelled. super.getRepositoryMetadata is the tag `RepositoryMetadata` and
  is assumed not to throw.
- An Ignite instance is a value: its name and its set of cache names.
  getOrCreateCache's creation of the cache on the node is not modelled.
- Java class identity: two repository interfaces are the same key when their
  name, supertype flag and annotation are equal.
- The `synchronized` modifier of getRepositoryMetadata. The registry is
  single-threaded. Caching a query per repository method belongs to Spring
  Data's RepositoryFactorySupport and is not modelled.
- StringUtils.hasText uses `Character.isWhitespace` at its current Unicode
  level. U+180E, whitespace only on Java 8, is not whitespace here.
- Java strings are UTF-16. The model uses Unicode scalar values, so lone
  surrogates cannot be written. The patterns only test single ASCII
  characters and line terminators.
- The boost is an opaque 32-bit value and no arithmetic is done on it. Any
  defaulting a null boost gets in NoneCondition or ConditionBuilder is not
  shown. The constructor's "null" start assumes the inherited field has
  Java's default value.
- Serialising a NoneCondition to a Lucene query, and the claim that it matches
  no document, are not part of these files.
- Only the "none" leaf of the condition hierarchy is modelled.
