/**
 * `defineConfig` and the `services.fs/s3/gcs` helpers: turn the user's
 * service entries into driver factories, collect the disks that the HTTP
 * server must serve, and fill in the defaults of the fakes.
 */
module Config {
  import opened Wrappers
  import opened Text
  import opened Http
  import opened Routes

  /** The options `services.fs` takes. `routeBasePath` is "" when not given. */
  datatype FsOptions = FsOptions(location: string, visibility: Visibility, serveFiles: bool, routeBasePath: string)

  /** The options handed to the `fs` driver; `urlBuilder` names the route it signs URLs for, when files are served. */
  datatype FsDriverOptions = FsDriverOptions(visibility: Visibility, location: string, urlBuilder: Option<string>)

  /** A driver factory: one the user wrote (identified by `id`), or one a provider built. */
  datatype Factory =
    | UserFactory(id: string)
    | FsFactory(options: FsDriverOptions)
    | S3Factory(s3: string)
    | GcsFactory(gcs: string)

  /** A value under `services`: a factory function, or a provider from `services.fs/s3/gcs`. */
  datatype ServiceEntry =
    | FactoryFunction(factory: Factory)
    | FsProvider(fs: FsOptions)
    | S3Provider(s3Config: string)
    | GcsProvider(gcsConfig: string)

  /** An entry of `locallyServed`. */
  datatype LocallyServed = LocallyServed(service: string, routeName: string, routePattern: string)

  datatype RuntimeException = RuntimeException(message: string)

  function MissingRouteBasePath(name: string): RuntimeException {
    RuntimeException("Invalid drive config. Missing \"routeBasePath\" option in \"services." + name + "\" object")
  }

  /** The resolver of `services.fs(options)` for the service `name`. */
  method FsResolver(name: string, options: FsOptions, locallyServed: seq<LocallyServed>)
    returns (r: Result<Factory, RuntimeException>, served: seq<LocallyServed>)
    ensures r.Err? <==> options.serveFiles && options.routeBasePath == ""
    ensures r.Err? ==> r.error == MissingRouteBasePath(name) && served == locallyServed
    ensures r.Ok? ==> r.value.FsFactory?
    ensures r.Ok? ==> r.value.options.location == options.location && r.value.options.visibility == options.visibility
    ensures r.Ok? && options.serveFiles ==>
      && r.value.options.urlBuilder == Some(RouteName(name))
      && served == locallyServed + [LocallyServed(name, RouteName(name), RoutePattern(options.routeBasePath))]
    ensures r.Ok? && !options.serveFiles ==> r.value.options.urlBuilder.None? && served == locallyServed
  {
    served := locallyServed;
    if options.serveFiles && options.routeBasePath == "" {
      return Err(MissingRouteBasePath(name)), served;
    }
    var routeName := RouteName(name);
    var fsConfig := FsDriverOptions(options.visibility, options.location, None);
    if options.serveFiles {
      fsConfig := fsConfig.(urlBuilder := Some(routeName));
      served := served + [LocallyServed(name, routeName, RoutePattern(options.routeBasePath))];
    }
    return Ok(FsFactory(fsConfig)), served;
  }

  /** What one service entry contributes: its factory and the served list after it. */
  function Step(name: string, entry: ServiceEntry, served: seq<LocallyServed>): Result<(Factory, seq<LocallyServed>), RuntimeException> {
    match entry
    case FactoryFunction(f) => Ok((f, served))
    case FsProvider(o) =>
      if o.serveFiles && o.routeBasePath == "" then Err(MissingRouteBasePath(name))
      else if o.serveFiles then
        Ok((FsFactory(FsDriverOptions(o.visibility, o.location, Some(RouteName(name)))),
            served + [LocallyServed(name, RouteName(name), RoutePattern(o.routeBasePath))]))
      else Ok((FsFactory(FsDriverOptions(o.visibility, o.location, None)), served))
    case S3Provider(c) => Ok((S3Factory(c), served))
    case GcsProvider(c) => Ok((GcsFactory(c), served))
  }

  datatype Resolution = Resolution(disks: map<string, Factory>, locallyServed: seq<LocallyServed>)

  /** The resolution loop over the services in key order, stopping at the first resolver that throws. */
  function ResolveAll(services: seq<(string, ServiceEntry)>): Result<Resolution, RuntimeException>
    decreases |services|
  {
    if services == [] then Ok(Resolution(map[], []))
    else
      var last := services[|services| - 1];
      match ResolveAll(services[..|services| - 1])
      case Err(e) => Err(e)
      case Ok(acc) =>
        match Step(last.0, last.1, acc.locallyServed)
        case Err(e) => Err(e)
        case Ok((f, served)) => Ok(Resolution(acc.disks[last.0 := f], served))
  }

  function Names(services: seq<(string, ServiceEntry)>): set<string> {
    set i | 0 <= i < |services| :: services[i].0
  }

  /** An `fs` entry that asks to serve files without a route base path. */
  predicate Misconfigured(entry: ServiceEntry) {
    entry.FsProvider? && entry.fs.serveFiles && entry.fs.routeBasePath == ""
  }

  /** The `locallyServed` entry a service contributes, if any. */
  function ServedBy(name: string, entry: ServiceEntry): seq<LocallyServed> {
    if entry.FsProvider? && entry.fs.serveFiles
    then [LocallyServed(name, RouteName(name), RoutePattern(entry.fs.routeBasePath))]
    else []
  }

  function AllServed(services: seq<(string, ServiceEntry)>): seq<LocallyServed>
    decreases |services|
  {
    if services == [] then [] else AllServed(services[..|services| - 1]) + ServedBy(services[|services| - 1].0, services[|services| - 1].1)
  }

  /** One entry fails exactly when it is misconfigured, and otherwise extends the served list by its own entry. */
  lemma StepSpec(name: string, entry: ServiceEntry, served: seq<LocallyServed>)
    ensures Step(name, entry, served).Err? <==> Misconfigured(entry)
    ensures Step(name, entry, served).Err? ==> Step(name, entry, served).error == MissingRouteBasePath(name)
    ensures Step(name, entry, served).Ok? ==> Step(name, entry, served).value.1 == served + ServedBy(name, entry)
  {
  }

  /**
   * Resolution fails exactly when some `fs` entry is misconfigured, and
   * then with the first such entry's message.
   */
  lemma {:induction false} ResolveAllFails(services: seq<(string, ServiceEntry)>)
    ensures ResolveAll(services).Err? <==> exists i | 0 <= i < |services| :: Misconfigured(services[i].1)
    ensures ResolveAll(services).Err? ==>
      exists i | 0 <= i < |services| ::
        && Misconfigured(services[i].1)
        && (forall j | 0 <= j < i :: !Misconfigured(services[j].1))
        && ResolveAll(services).error == MissingRouteBasePath(services[i].0)
    decreases |services|
  {
    if services != [] {
      var init := services[..|services| - 1];
      var last := services[|services| - 1];
      ResolveAllFails(init);
      assert forall i | 0 <= i < |init| :: init[i] == services[i];
      if ResolveAll(init).Ok? {
        StepSpec(last.0, last.1, ResolveAll(init).value.locallyServed);
        if Misconfigured(last.1) {
          var i := |services| - 1;
          assert forall j | 0 <= j < i :: !Misconfigured(services[j].1) by {
            forall j | 0 <= j < i ensures !Misconfigured(services[j].1) {
              assert services[j] == init[j];
            }
          }
        }
      }
    }
  }

  /** A successful resolution has one disk per service name and serves the `fs` services that ask to, in order. */
  lemma {:induction false} ResolveAllContents(services: seq<(string, ServiceEntry)>)
    requires ResolveAll(services).Ok?
    ensures ResolveAll(services).value.disks.Keys == Names(services)
    ensures ResolveAll(services).value.locallyServed == AllServed(services)
    decreases |services|
  {
    if services != [] {
      var init := services[..|services| - 1];
      var last := services[|services| - 1];
      ResolveAllContents(init);
      StepSpec(last.0, last.1, ResolveAll(init).value.locallyServed);
      NamesSnoc(services);
    }
  }

  lemma NamesSnoc(services: seq<(string, ServiceEntry)>)
    requires services != []
    ensures Names(services) == Names(services[..|services| - 1]) + {services[|services| - 1].0}
  {
    var init := services[..|services| - 1];
    forall k | k in Names(services) ensures k in Names(init) + {services[|services| - 1].0} {
      var i :| 0 <= i < |services| && services[i].0 == k;
      if i < |init| { assert init[i].0 == k; }
    }
    forall k | k in Names(init) ensures k in Names(services) {
      var i :| 0 <= i < |init| && init[i].0 == k;
      assert services[i].0 == k;
    }
  }

  /** A factory function the user supplies comes out unchanged. */
  lemma {:induction false} FactoryFunctionsPassThrough(services: seq<(string, ServiceEntry)>, k: nat)
    requires k < |services| && services[k].1.FactoryFunction?
    requires forall i, j | 0 <= i < j < |services| :: services[i].0 != services[j].0
    requires ResolveAll(services).Ok?
    ensures services[k].0 in ResolveAll(services).value.disks
    ensures ResolveAll(services).value.disks[services[k].0] == services[k].1.factory
    decreases |services|
  {
    var init := services[..|services| - 1];
    if k < |init| {
      assert forall i, j | 0 <= i < j < |init| :: init[i].0 != init[j].0;
      FactoryFunctionsPassThrough(init, k);
    }
  }

  // ---------------------------------------------------------------------
  // Fakes
  // ---------------------------------------------------------------------

  /** How fake disks build URLs: the default `/drive/fakes/...` builder or one the user gave. */
  datatype UrlBuilder = FakeUrls | CustomUrls(id: string)

  function FakeUrl(key: string): (r: string)
    ensures StartsWith(r, "/drive/fakes/") && r[13..] == key
  {
    var r := "/drive/fakes/" + key;
    assert r[..13] == "/drive/fakes/";
    r
  }

  function FakeSignedUrl(key: string): (r: string)
    ensures StartsWith(r, "/drive/fakes/signed/") && r[20..] == key
  {
    var r := "/drive/fakes/signed/" + key;
    assert r[..20] == "/drive/fakes/signed/";
    r
  }

  /** The default builder's two kinds of URL share one namespace: `signed/<key>` as a plain key reads like a signed URL. */
  lemma FakeUrlsOverlap(key: string)
    ensures FakeUrl("signed/" + key) == FakeSignedUrl(key)
    ensures forall a, b | FakeUrl(a) == FakeUrl(b) :: a == b
    ensures forall a, b | FakeSignedUrl(a) == FakeSignedUrl(b) :: a == b
  {
  }

  /** The `fakes` fields the user set; `None` means the key is absent. */
  datatype FakesOptions = FakesOptions(location: Option<string>, urlBuilder: Option<UrlBuilder>)

  datatype FakesConfig = FakesConfig(location: string, urlBuilder: UrlBuilder)

  /** The defaults, then `...fakes`: every field the user gave wins. */
  function MergeFakes(tmpLocation: string, fakes: Option<FakesOptions>): (r: FakesConfig)
    ensures fakes.Some? && fakes.value.location.Some? ==> r.location == fakes.value.location.value
    ensures (fakes.None? || fakes.value.location.None?) ==> r.location == tmpLocation
    ensures fakes.Some? && fakes.value.urlBuilder.Some? ==> r.urlBuilder == fakes.value.urlBuilder.value
    ensures (fakes.None? || fakes.value.urlBuilder.None?) ==> r.urlBuilder == FakeUrls
  {
    var defaults := FakesConfig(tmpLocation, FakeUrls);
    match fakes
    case None => defaults
    case Some(f) =>
      var withLocation := if f.location.Some? then defaults.(location := f.location.value) else defaults;
      if f.urlBuilder.Some? then withLocation.(urlBuilder := f.urlBuilder.value) else withLocation
  }

  datatype UserConfig = UserConfig(default: string, fakes: Option<FakesOptions>, services: seq<(string, ServiceEntry)>)

  datatype ResolvedConfig = ResolvedConfig(default: string, fakes: FakesConfig, services: map<string, Factory>, locallyServed: seq<LocallyServed>)

  /**
   * The provider `defineConfig` creates, run against an application whose
   * `tmpPath('drive-fakes')` is `tmpLocation`. `services` lists the keys
   * of the services object in its iteration order.
   */
  method DefineConfig(config: UserConfig, tmpLocation: string) returns (r: Result<ResolvedConfig, RuntimeException>)
    ensures ResolveAll(config.services).Err? ==> r == Err(ResolveAll(config.services).error)
    ensures ResolveAll(config.services).Ok? ==> r.Ok?
    ensures r.Ok? ==>
      && r.value.default == config.default
      && r.value.fakes == MergeFakes(tmpLocation, config.fakes)
      && r.value.services == ResolveAll(config.services).value.disks
      && r.value.locallyServed == ResolveAll(config.services).value.locallyServed
  {
    var services := config.services;
    var disks: map<string, Factory> := map[];
    var locallyServed: seq<LocallyServed> := [];
    var i := 0;
    while i < |services|
      invariant 0 <= i <= |services|
      invariant ResolveAll(services[..i]) == Ok(Resolution(disks, locallyServed))
    {
      var (serviceName, disk) := services[i];
      assert services[..i + 1][..i] == services[..i];
      if disk.FactoryFunction? {
        disks := disks[serviceName := disk.factory];
      } else if disk.FsProvider? {
        var factory;
        factory, locallyServed := FsResolver(serviceName, disk.fs, locallyServed);
        if factory.Err? {
          PrefixFailurePersists(services, i + 1);
          assert services[..|services|] == services;
          return Err(factory.error);
        }
        disks := disks[serviceName := factory.value];
      } else if disk.S3Provider? {
        disks := disks[serviceName := S3Factory(disk.s3Config)];
      } else {
        disks := disks[serviceName := GcsFactory(disk.gcsConfig)];
      }
      i := i + 1;
    }
    assert services[..i] == services;
    return Ok(ResolvedConfig(config.default, MergeFakes(tmpLocation, config.fakes), disks, locallyServed));
  }

  /** Once a prefix fails, every longer prefix fails with the same error. */
  lemma {:induction false} PrefixFailurePersists(services: seq<(string, ServiceEntry)>, k: nat)
    requires k <= |services| && ResolveAll(services[..k]).Err?
    ensures ResolveAll(services) == ResolveAll(services[..k])
    decreases |services| - k
  {
    if k < |services| {
      assert services[..k + 1][..k] == services[..k];
      PrefixFailurePersists(services, k + 1);
    } else {
      assert services[..k] == services;
    }
  }
}
