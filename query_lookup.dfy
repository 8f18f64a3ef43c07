/** The decision table of the query lookup strategy that
    IgniteRepositoryFactory.getQueryLookupStrategy returns: given the lookup
    key and the method's @Query annotation, a repository method gets either
    the query it declares, a query generated from its name, or an error.
    What the generator, the option reader and the dynamic-query configuration
    compute is not part of this model; their results appear as tags. */
module QueryLookup {
  import opened Wrappers
  import opened JavaText
  import opened FieldQuery

  /** Spring Data's QueryLookupStrategy.Key. */
  datatype LookupKey = Create | UseDeclaredQuery | CreateIfNotFound

  /** The elements of the @Query annotation that the strategy reads. */
  datatype QueryAnnotation = QueryAnnotation(
    value: string,
    textQuery: bool,
    dynamicQuery: bool,
    forceFieldsQuery: bool)

  /** What IgniteQueryGenerator.getOptions returns for a method (derived from
      its parameter types); opaque here. */
  datatype QueryOptions = QueryOptions(id: nat)

  /** A repository query method: its name, its @Query annotation (absent when
      getAnnotation returns null) and its query options. */
  datatype QueryMethod = QueryMethod(
    name: string,
    annotation: Option<QueryAnnotation>,
    options: QueryOptions)

  /** The arguments of `new IgniteQuery(...)`. */
  datatype IgniteQuery = IgniteQuery(
    sql: string,
    isFieldQuery: bool,
    isTextQuery: bool,
    isAutogenerated: bool,
    options: QueryOptions)

  /** DynamicQueryConfig.fromQueryAnnotation(annotation), recorded by the
      annotation (or null) it was read from. */
  datatype DynamicQueryConfig = FromQueryAnnotation(annotation: Option<QueryAnnotation>)

  /** What the strategy decides before any collaborator can fail: use the
      declared query (the IgniteQuery and the dynamic configuration, each
      possibly null), generate one from the method, or refuse. */
  datatype LookupOutcome =
    | UseDeclared(query: Option<IgniteQuery>, config: Option<DynamicQueryConfig>)
    | UseGenerated
    | DeclaredQueryMissing

  /** The annotation declares something: a query text, a text query or a
      dynamic query. */
  predicate DeclaresQuery(a: QueryAnnotation) {
    HasText(a.value) || a.textQuery || a.dynamicQuery
  }

  /** `annotatedIgniteQuery`: the annotation carries a static query (text or
      text-search flag) and is not dynamic. */
  predicate IsAnnotatedQuery(a: QueryAnnotation) {
    !a.dynamicQuery && (HasText(a.value) || a.textQuery)
  }

  /** The IgniteQuery built from the annotation, when it carries a static one. */
  function AnnotatedQuery(m: QueryMethod, a: QueryAnnotation): Option<IgniteQuery> {
    if IsAnnotatedQuery(a) then
      Some(IgniteQuery(
        a.value,
        !a.textQuery && (IsFieldQuery(a.value) || a.forceFieldsQuery),
        a.textQuery,
        false,
        m.options))
    else
      None
  }

  /** The strategy's decision for a method under a lookup key. With key CREATE
      the declared query is built but then dropped, so the declared path is
      never taken. */
  function LookupQuery(key: LookupKey, m: QueryMethod): LookupOutcome {
    if m.annotation.Some? && DeclaresQuery(m.annotation.value) && key != Create then
      var a := m.annotation.value;
      UseDeclared(
        AnnotatedQuery(m, a),
        if IsAnnotatedQuery(a) then Some(FromQueryAnnotation(Some(a))) else None)
    else if key == UseDeclaredQuery then
      DeclaredQueryMissing
    else
      UseGenerated
  }

  /** The kind of query a declared string denotes. */
  datatype QueryKind = TextQuery | FieldsQuery | EntityQuery

  /** The classification rule, evaluated in order: the text flag
      wins, then the force flag, then the lexical test. */
  function Classify(raw: string, textQuery: bool, forceFieldsQuery: bool): QueryKind {
    if textQuery then TextQuery
    else if forceFieldsQuery then FieldsQuery
    else if IsFieldQuery(raw) then FieldsQuery
    else EntityQuery
  }

  /** The declared path is taken exactly when the annotation is present,
      declares something, and the key is not CREATE. */
  lemma DeclaredPathIff(key: LookupKey, m: QueryMethod)
    ensures LookupQuery(key, m).UseDeclared? <==>
      m.annotation.Some? && DeclaresQuery(m.annotation.value) && key != Create
  {
  }

  /** On the declared path a dynamic query carries neither an IgniteQuery nor
      a dynamic configuration; any other one carries both, built from the
      annotation, with the fourth IgniteQuery flag false. */
  lemma DeclaredPathShape(key: LookupKey, m: QueryMethod)
    requires LookupQuery(key, m).UseDeclared?
    ensures var a := m.annotation.value;
      var d := LookupQuery(key, m);
      && (a.dynamicQuery ==> d.query == None && d.config == None)
      && (!a.dynamicQuery ==>
            && d.query.Some? && d.config == Some(FromQueryAnnotation(Some(a)))
            && d.query.value.sql == a.value
            && d.query.value.isTextQuery == a.textQuery
            && !d.query.value.isAutogenerated
            && d.query.value.options == m.options)
  {
  }

  /** The field-query flag of a declared query is the rule's verdict: it is
      set exactly when Classify says fields, and the text flag exactly when it
      says text; so the two flags are never both set. */
  lemma DeclaredFlagsFollowClassify(key: LookupKey, m: QueryMethod)
    requires LookupQuery(key, m).UseDeclared? && LookupQuery(key, m).query.Some?
    ensures var a := m.annotation.value;
      var q := LookupQuery(key, m).query.value;
      && (q.isFieldQuery <==> Classify(a.value, a.textQuery, a.forceFieldsQuery) == FieldsQuery)
      && (q.isTextQuery <==> Classify(a.value, a.textQuery, a.forceFieldsQuery) == TextQuery)
      && !(q.isFieldQuery && q.isTextQuery)
  {
  }

  /** The text flag overrides the force flag; the force flag makes any string,
      even a star select, a fields query; without it a star select is an
      entity query. */
  lemma FlagPrecedence(raw: string)
    ensures Classify(raw, true, true) == TextQuery
    ensures Classify(raw, false, true) == FieldsQuery
    ensures Classify("select * from Person", false, true) == FieldsQuery
    ensures Classify("select * from Person", false, false) == EntityQuery
  {
    StarSelectExample();
  }

  /** USE_DECLARED_QUERY without a declared query is refused, and only then is
      anything refused. */
  lemma MissingDeclaredQueryIff(key: LookupKey, m: QueryMethod)
    ensures LookupQuery(key, m) == DeclaredQueryMissing <==>
      key == UseDeclaredQuery && !(m.annotation.Some? && DeclaresQuery(m.annotation.value))
  {
  }

  /** The generator is used under CREATE whatever the annotation holds, and
      under CREATE_IF_NOT_FOUND exactly when nothing is declared. */
  lemma GeneratedPathIff(key: LookupKey, m: QueryMethod)
    ensures LookupQuery(key, m) == UseGenerated <==>
      key == Create ||
      (key == CreateIfNotFound && !(m.annotation.Some? && DeclaresQuery(m.annotation.value)))
  {
  }

  /** Under CREATE the declared annotation plays no part in the decision. */
  lemma CreateIgnoresAnnotation(m: QueryMethod, a: Option<QueryAnnotation>)
    ensures LookupQuery(Create, m) == LookupQuery(Create, m.(annotation := a)) == UseGenerated
  {
  }
}
