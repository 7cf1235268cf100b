/**
 * `DriveManager`: resolves disks by name, swaps in fakes for tests, and
 * forwards every file operation to the default disk.
 */
module Manager {
  import opened Wrappers
  import opened Errors

  /** A disk's configuration, as far as the manager reads it: its driver name. */
  datatype DiskConfig = DiskConfig(driver: string)

  /** `{ disk, disks }` */
  datatype DriveConfig = DriveConfig(disk: string, disks: map<string, DiskConfig>)

  /** What the configuration validator of the manager package refuses. */
  datatype ConfigError = MissingDefaultDisk | UnknownDefaultDisk(disk: string)

  datatype Exception = Exception(message: string, status: int, code: string)

  const MissingDriveConfig := Exception(
    "Missing configuration for drive. Visit https://bit.ly/2WnR5j9 for setup instructions",
    500, "E_MISSING_DRIVE_CONFIG")

  /** A disk instance handed out by `use`: the base manager's cached one, or a fake. */
  datatype Disk = Instance(name: string) | FakeDisk(name: string, config: Option<DiskConfig>)

  /** The default fake implementation: a fake disk for the name and its configuration. */
  function DefaultFake(disk: string, config: Option<DiskConfig>): Disk {
    FakeDisk(disk, config)
  }

  /** `validateDefault('disk')` then `validateList('disks', 'disk')`. */
  function Validate(config: DriveConfig): (r: Option<ConfigError>)
    ensures r.None? <==> config.disk != "" && config.disk in config.disks
  {
    if config.disk == "" then Some(MissingDefaultDisk)
    else if config.disk !in config.disks then Some(UnknownDefaultDisk(config.disk))
    else None
  }

  /** The instance `use` hands out for `name` once the manager is ready: a registered fake wins. */
  function Resolve(fakes: map<string, Disk>, name: string): (d: Disk)
    ensures name in fakes ==> d == fakes[name]
    ensures name !in fakes ==> d == Instance(name)
  {
    if name in fakes then fakes[name] else Instance(name)
  }

  /** The operations the manager forwards, with their arguments. */
  datatype Operation =
    | Get(location: string)
    | GetStream(location: string)
    | Exists(location: string)
    | GetVisibility(location: string)
    | GetStats(location: string)
    | GetSignedUrl(location: string, options: map<string, string>)
    | GetUrl(location: string)
    | Put(location: string, contents: seq<bv8>)
    | PutStream(location: string, stream: string)
    | SetVisibility(location: string, visibility: string)
    | Delete(location: string)
    | Copy(source: string, destination: string)
    | Move(source: string, destination: string)

  class DriveManager {
    var isReady: bool
    const config: Option<DriveConfig>
    var fakes: map<string, Disk>
    var fakeCallback: (string, Option<DiskConfig>) -> Disk

    /** Ready exactly when a configuration was given (an invalid one never yields a manager). */
    predicate Valid()
      reads this
    {
      isReady <==> config.Some?
    }

    /** The constructor with its call to `validateConfig`. */
    constructor (config: Option<DriveConfig>)
      requires config.Some? ==> Validate(config.value).None?
      ensures Valid() && this.config == config && fakes == map[]
      ensures isReady <==> config.Some?
      ensures fakeCallback == DefaultFake
    {
      this.config := config;
      fakes := map[];
      fakeCallback := DefaultFake;
      isReady := config.Some?;
    }

    /** A `DriveManager` is built only from a configuration the validator accepts. */
    static method Create(config: Option<DriveConfig>) returns (r: Result<DriveManager, ConfigError>)
      ensures r.Err? <==> config.Some? && Validate(config.value).Some?
      ensures r.Err? ==> r.error == Validate(config.value).value
      ensures r.Ok? ==> fresh(r.value) && r.value.Valid() && r.value.config == config && r.value.fakes == map[]
      ensures r.Ok? ==> (r.value.isReady <==> config.Some?)
    {
      if config.Some? {
        var problem := Validate(config.value);
        if problem.Some? {
          return Err(problem.value);
        }
      }
      var m := new DriveManager(config);
      return Ok(m);
    }

    /** `disk || this.getDefaultMappingName()`; reading the default without a configuration throws. */
    function DiskName(disk: Option<string>): (r: Result<string, TypeError>)
      reads this
      ensures disk.Some? && disk.value != "" ==> r == Ok(disk.value)
      ensures (disk.None? || disk.value == "") ==> (r.Err? <==> config.None?)
      ensures (disk.None? || disk.value == "") && config.Some? ==> r == Ok(config.value.disk)
    {
      if disk.Some? && disk.value != "" then Ok(disk.value)
      else if config.None? then Err(TypeError)
      else Ok(config.value.disk)
    }

    /** `getMappingConfig` */
    function MappingConfig(disk: string): (r: Result<Option<DiskConfig>, TypeError>)
      reads this
      ensures r.Err? <==> config.None?
      ensures config.Some? && disk in config.value.disks ==> r == Ok(Some(config.value.disks[disk]))
      ensures config.Some? && disk !in config.value.disks ==> r == Ok(None)
    {
      if config.None? then Err(TypeError)
      else if disk in config.value.disks then Ok(Some(config.value.disks[disk]))
      else Ok(None)
    }

    /** `fake`: install a fake for the disk unless it already has one. */
    method Fake(disk: Option<string>) returns (r: Result<(), TypeError>)
      modifies this
      ensures isReady == old(isReady) && fakeCallback == old(fakeCallback)
      // the configuration is read only for a disk that has no fake yet
      ensures r.Err? <==> config.None? && (DiskName(disk).Err? || DiskName(disk).value !in old(fakes))
      ensures r.Err? ==> fakes == old(fakes)
      ensures r.Ok? ==> var name := DiskName(disk).value;
        && name in fakes
        && (name in old(fakes) ==> fakes == old(fakes))
        && (name !in old(fakes) ==> fakes == old(fakes)[name := fakeCallback(name, MappingConfig(name).value)])
    {
      var name := DiskName(disk);
      if name.Err? {
        return Err(name.error);
      }
      if name.value !in fakes {
        var mapping := MappingConfig(name.value);
        if mapping.Err? {
          return Err(mapping.error);
        }
        fakes := fakes[name.value := fakeCallback(name.value, mapping.value)];
      }
      return Ok(());
    }

    /** `restore`: remove the disk's fake, a no-op when it has none. */
    method Restore(disk: Option<string>) returns (r: Result<(), TypeError>)
      modifies this
      ensures isReady == old(isReady) && fakeCallback == old(fakeCallback)
      ensures r.Err? <==> DiskName(disk).Err?
      ensures r.Err? ==> fakes == old(fakes)
      ensures r.Ok? ==> fakes == old(fakes) - {DiskName(disk).value}
    {
      var name := DiskName(disk);
      if name.Err? {
        return Err(name.error);
      }
      if name.value in fakes {
        fakes := fakes - {name.value};
      }
      return Ok(());
    }

    /** `restoreAll` */
    method RestoreAll()
      modifies this
      ensures fakes == map[]
      ensures isReady == old(isReady) && fakeCallback == old(fakeCallback)
    {
      fakes := map[];
    }

    /** `setFakeImplementation` */
    method SetFakeImplementation(callback: (string, Option<DiskConfig>) -> Disk)
      modifies this
      ensures fakeCallback == callback
      ensures isReady == old(isReady) && fakes == old(fakes)
    {
      fakeCallback := callback;
    }

    /** `use`: refuse before the configuration is validated; otherwise a fake wins over the base instance. */
    function Use(disk: Option<string>): (r: Result<Disk, Exception>)
      reads this
      requires Valid()
      ensures !isReady <==> r == Err(MissingDriveConfig)
      ensures isReady ==> r == Ok(Resolve(fakes, DiskName(disk).value))
    {
      if !isReady then Err(MissingDriveConfig)
      else Ok(Resolve(fakes, DiskName(disk).value))
    }

    /** Every file operation goes, unchanged, to the default disk. */
    function Forward(op: Operation): (r: Result<(Disk, Operation), Exception>)
      reads this
      requires Valid()
      ensures r.Err? <==> !isReady
      ensures r.Ok? ==> r.value.1 == op && r.value.0 == Use(None).value
      ensures r.Ok? ==> r.value.0 == Resolve(fakes, config.value.disk)
    {
      match Use(None)
      case Err(e) => Err(e)
      case Ok(d) => Ok((d, op))
    }
  }

  /** Faking or restoring one disk leaves every other disk's resolution as it was. */
  lemma OtherDisksUnaffected(fakes: map<string, Disk>, disk: string, fake: Disk, other: string)
    requires other != disk
    ensures Resolve(fakes[disk := fake], other) == Resolve(fakes, other)
    ensures Resolve(fakes - {disk}, other) == Resolve(fakes, other)
  {
  }

  /** After a restore the disk resolves to the base instance again; after faking, to the fake. */
  lemma RestoreReturnsBaseInstance(fakes: map<string, Disk>, disk: string, fake: Disk)
    ensures Resolve(fakes - {disk}, disk) == Instance(disk)
    ensures Resolve(fakes[disk := fake], disk) == fake
    ensures Resolve(map[], disk) == Instance(disk)
  {
  }
}
