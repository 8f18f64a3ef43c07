/** IgniteRepositoryFactory's own state and the logic around it: the two maps
    from repository interface to cache name and to Ignite instance, the
    validation getRepositoryMetadata does before filling them, the cache
    lookup of getRepositoryCache, and the query resolution of the lookup
    strategy once the cache is looked up. */
module RepositoryFactory {
  import opened Wrappers
  import opened JavaText
  import opened QueryLookup

  /** The @RepositoryConfig annotation of a repository interface. */
  datatype RepositoryConfig = RepositoryConfig(
    cacheName: string,
    autoCreateCache: bool,
    igniteInstance: string,
    igniteCfg: string,
    igniteSpringCfgPath: string)

  /** A repository interface, as far as the factory inspects it: its name,
      whether it extends IgniteRepository, and its @RepositoryConfig
      annotation (absent when getAnnotation returns null). */
  datatype RepositoryInterface = RepositoryInterface(
    name: string,
    extendsIgniteRepository: bool,
    config: Option<RepositoryConfig>)

  /** A cache of an Ignite instance. */
  datatype CacheHandle = CacheHandle(instanceName: string, cacheName: string)

  /** An Ignite instance, as far as the factory uses it: its name and the
      caches it holds. */
  datatype Ignite = Ignite(instanceName: string, caches: set<string>) {

    /** Ignite.cache: the existing cache of that name, or null. */
    function Cache(name: string): Option<CacheHandle> {
      if name in caches then Some(CacheHandle(instanceName, name)) else None
    }

    /** Ignite.getOrCreateCache: the cache of that name, created if needed. */
    function GetOrCreateCache(name: string): CacheHandle {
      CacheHandle(instanceName, name)
    }
  }

  /** What super.getRepositoryMetadata returns for an accepted interface. */
  datatype RepositoryMetadata = RepositoryMetadata(repositoryInterface: RepositoryInterface)

  /** The failures of the factory, each named after the check or the call
      that raises it. */
  datatype FactoryError =
    | RepositoryInterfaceNotSet
    | NotAnIgniteRepository
    | RepositoryConfigMissing
    | CacheNameMissing
    | CacheNotFound(cacheName: string, repositoryName: string)
    | DeclaredQueryRequired
    | NullDereference
    | CollaboratorFailed(code: nat)

  /** The Java exceptions behind the failures. */
  datatype JavaException =
    | IllegalArgumentException
    | IllegalStateException
    | NullPointerException
    | CollaboratorException

  /** Spring's Assert throws IllegalArgumentException; getRepositoryCache and
      the lookup strategy throw IllegalStateException. */
  function ExceptionOf(e: FactoryError): JavaException {
    match e
    case RepositoryInterfaceNotSet | NotAnIgniteRepository
       | RepositoryConfigMissing | CacheNameMissing => IllegalArgumentException
    case CacheNotFound(_, _) | DeclaredQueryRequired => IllegalStateException
    case NullDereference => NullPointerException
    case CollaboratorFailed(_) => CollaboratorException
  }

  /** The repository query the lookup strategy builds, or its failure. */
  datatype Resolution =
    | Declared(
        ignite: Ignite,
        declaredQuery: Option<IgniteQuery>,
        cache: CacheHandle,
        declaredConfig: Option<DynamicQueryConfig>)
    | Generated(
        ignite: Ignite,
        generatedQuery: IgniteQuery,
        cache: CacheHandle,
        generatedConfig: DynamicQueryConfig)
    | Failed(error: FactoryError)

  /** An interface the factory accepts: it extends IgniteRepository and its
      @RepositoryConfig names a cache. */
  predicate Registrable(repo: RepositoryInterface) {
    repo.extendsIgniteRepository && repo.config.Some? && HasText(repo.config.value.cacheName)
  }

  /** The four assertions of getRepositoryMetadata, in their order. */
  function CheckRepository(repoItf: Option<RepositoryInterface>): (r: Result<RepositoryConfig, FactoryError>)
    ensures r.Success? <==> repoItf.Some? && Registrable(repoItf.value)
    ensures r.Success? ==> r.value == repoItf.value.config.value
    ensures r.Failure? ==> ExceptionOf(r.error) == IllegalArgumentException
  {
    if repoItf.None? then Failure(RepositoryInterfaceNotSet)
    else if !repoItf.value.extendsIgniteRepository then Failure(NotAnIgniteRepository)
    else if repoItf.value.config.None? then Failure(RepositoryConfigMissing)
    else if !HasText(repoItf.value.config.value.cacheName) then Failure(CacheNameMissing)
    else Success(repoItf.value.config.value)
  }

  class IgniteRepositoryFactory {
    /** The cache name recorded for each registered interface. */
    var repoToCache: map<RepositoryInterface, string>
    /** The Ignite instance resolved for each registered interface. */
    var repoToIgnite: map<RepositoryInterface, Ignite>

    /** Every mapped interface passed the checks and maps to the cache its
        annotation names; an Ignite entry is only ever added after the cache
        entry. */
    ghost predicate Valid()
      reads this
    {
      && repoToIgnite.Keys <= repoToCache.Keys
      && forall repo :: repo in repoToCache ==>
           Registrable(repo) && repoToCache[repo] == repo.config.value.cacheName
    }

    constructor ()
      ensures Valid()
      ensures repoToCache == map[] && repoToIgnite == map[]
    {
      repoToCache := map[];
      repoToIgnite := map[];
    }

    /** getRepositoryMetadata: validate the interface, record its cache, then
        resolve and record its Ignite instance. `igniteForRepoConfig` stands
        for the resolution from Spring beans, which is not modelled. */
    method GetRepositoryMetadata(
      repoItf: Option<RepositoryInterface>,
      igniteForRepoConfig: RepositoryConfig -> Result<Ignite, FactoryError>)
      returns (r: Result<RepositoryMetadata, FactoryError>)
      requires Valid()
      modifies this
      ensures Valid()
      ensures CheckRepository(repoItf).Failure? ==>
        && r == Failure(CheckRepository(repoItf).error)
        && repoToCache == old(repoToCache) && repoToIgnite == old(repoToIgnite)
      ensures CheckRepository(repoItf).Success? ==>
        var repo := repoItf.value;
        var config := CheckRepository(repoItf).value;
        && repoToCache == old(repoToCache)[repo := config.cacheName]
        && match igniteForRepoConfig(config)
           case Failure(e) => r == Failure(e) && repoToIgnite == old(repoToIgnite)
           case Success(ignite) =>
             r == Success(RepositoryMetadata(repo)) && repoToIgnite == old(repoToIgnite)[repo := ignite]
    {
      var checked := CheckRepository(repoItf);
      if checked.Failure? {
        return Failure(checked.error);
      }
      var repo := repoItf.value;
      var config := checked.value;
      repoToCache := repoToCache[repo := config.cacheName];
      var ignite := igniteForRepoConfig(config);
      if ignite.Failure? {
        return Failure(ignite.error);
      }
      repoToIgnite := repoToIgnite[repo := ignite.value];
      r := Success(RepositoryMetadata(repo));
    }

    /** getRepositoryCache: the interface's cache on its Ignite instance,
        created on demand when the annotation asks for it and looked up
        otherwise; a missing cache is an IllegalStateException, and a missing
        annotation or instance a NullPointerException. */
    function RepositoryCache(repo: RepositoryInterface): (r: Result<CacheHandle, FactoryError>)
      reads this
      requires Valid()
      ensures r.Success? <==>
        && repo in repoToIgnite
        && (repo.config.value.autoCreateCache || repoToCache[repo] in repoToIgnite[repo].caches)
      ensures r.Success? ==>
        r.value == CacheHandle(repoToIgnite[repo].instanceName, repoToCache[repo])
      ensures r.Failure? ==>
        if repo in repoToIgnite then
          r.error == CacheNotFound(repoToCache[repo], repo.name)
          && ExceptionOf(r.error) == IllegalStateException
        else r.error == NullDereference
    {
      if repo.config.None? || repo !in repoToIgnite then
        Failure(NullDereference)
      else
        var ignite := repoToIgnite[repo];
        var cacheName := repoToCache[repo];
        if repo.config.value.autoCreateCache then
          Success(ignite.GetOrCreateCache(cacheName))
        else
          match ignite.Cache(cacheName)
          case None => Failure(CacheNotFound(cacheName, repo.name))
          case Some(c) => Success(c)
    }

    /** The lookup strategy's lambda for a method of `repo`. `generated` is what
        IgniteQueryGenerator.generateSql would return for the method; it is
        consulted only on the generated path, before the cache lookup. */
    function ResolveQuery(
      key: LookupKey,
      m: QueryMethod,
      repo: RepositoryInterface,
      generated: Result<IgniteQuery, FactoryError>): (r: Resolution)
      reads this
      requires Valid()
      ensures r.Declared? <==> LookupQuery(key, m).UseDeclared? && RepositoryCache(repo).Success?
      ensures r.Declared? ==>
        r.declaredQuery == LookupQuery(key, m).query && r.declaredConfig == LookupQuery(key, m).config
      ensures r.Generated? <==>
        LookupQuery(key, m) == UseGenerated && generated.Success? && RepositoryCache(repo).Success?
      ensures r.Generated? ==>
        generated == Success(r.generatedQuery) && r.generatedConfig == FromQueryAnnotation(m.annotation)
      ensures !r.Failed? ==> RepositoryCache(repo) == Success(r.cache)
      ensures r.Failed? ==>
        || r.error == DeclaredQueryRequired
        || (generated.Failure? && r.error == generated.error)
        || (RepositoryCache(repo).Failure? && r.error == RepositoryCache(repo).error)
    {
      match LookupQuery(key, m)
      case DeclaredQueryMissing => Failed(DeclaredQueryRequired)
      case UseDeclared(query, config) =>
        (match RepositoryCache(repo)
         case Failure(e) => Failed(e)
         case Success(c) => Declared(repoToIgnite[repo], query, c, config))
      case UseGenerated =>
        if generated.Failure? then Failed(generated.error)
        else
          match RepositoryCache(repo)
          case Failure(e) => Failed(e)
          case Success(c) => Generated(repoToIgnite[repo], generated.value, c, FromQueryAnnotation(m.annotation))
    }
  }

  /** USE_DECLARED_QUERY without a declared query fails with
      IllegalStateException whatever the generator would give: the generator
      is never consulted. */
  lemma UseDeclaredNeverGenerates(
    f: IgniteRepositoryFactory, m: QueryMethod, repo: RepositoryInterface,
    g1: Result<IgniteQuery, FactoryError>, g2: Result<IgniteQuery, FactoryError>)
    requires f.Valid()
    requires !(m.annotation.Some? && DeclaresQuery(m.annotation.value))
    ensures f.ResolveQuery(UseDeclaredQuery, m, repo, g1) == f.ResolveQuery(UseDeclaredQuery, m, repo, g2)
    ensures f.ResolveQuery(UseDeclaredQuery, m, repo, g1) == Failed(DeclaredQueryRequired)
    ensures ExceptionOf(DeclaredQueryRequired) == IllegalStateException
  {
    MissingDeclaredQueryIff(UseDeclaredQuery, m);
  }

  /** On the declared path the generator plays no part: the result is the
      declared query and configuration exactly when the cache lookup succeeds,
      and the cache lookup's failure otherwise. */
  lemma DeclaredPathIgnoresGenerator(
    f: IgniteRepositoryFactory, key: LookupKey, m: QueryMethod, repo: RepositoryInterface,
    g1: Result<IgniteQuery, FactoryError>, g2: Result<IgniteQuery, FactoryError>)
    requires f.Valid()
    requires LookupQuery(key, m).UseDeclared?
    ensures f.ResolveQuery(key, m, repo, g1) == f.ResolveQuery(key, m, repo, g2)
    ensures f.ResolveQuery(key, m, repo, g1).Declared? <==> f.RepositoryCache(repo).Success?
    ensures f.ResolveQuery(key, m, repo, g1).Declared? ==>
      f.ResolveQuery(key, m, repo, g1).declaredQuery == LookupQuery(key, m).query
    ensures f.ResolveQuery(key, m, repo, g1).Failed? ==>
      f.ResolveQuery(key, m, repo, g1).error == f.RepositoryCache(repo).error
  {
  }

  /** Under CREATE the result is the generated query, the cache failure or the
      generator failure, whatever the method's @Query declares: declaring a
      query makes no difference to it. */
  lemma CreateAlwaysGenerates(
    f: IgniteRepositoryFactory, m: QueryMethod, repo: RepositoryInterface,
    g: Result<IgniteQuery, FactoryError>)
    requires f.Valid()
    ensures var r := f.ResolveQuery(Create, m, repo, g);
      && !r.Declared?
      && (r.Generated? ==> g == Success(r.generatedQuery))
      && (r.Failed? ==>
            || (g.Failure? && r.error == g.error)
            || (g.Success? && r.error == f.RepositoryCache(repo).error))
  {
    GeneratedPathIff(Create, m);
  }

  /** A resolved query always has an Ignite instance and a cache, the one the
      repository was registered with: the Java null checks leave no path to a
      query without them. */
  lemma ResolvedQueryHasRegisteredCache(
    f: IgniteRepositoryFactory, key: LookupKey, m: QueryMethod, repo: RepositoryInterface,
    g: Result<IgniteQuery, FactoryError>)
    requires f.Valid()
    requires !f.ResolveQuery(key, m, repo, g).Failed?
    ensures repo in f.repoToIgnite && repo in f.repoToCache
    ensures f.ResolveQuery(key, m, repo, g).ignite == f.repoToIgnite[repo]
    ensures f.ResolveQuery(key, m, repo, g).cache.cacheName == repo.config.value.cacheName
  {
  }
}
