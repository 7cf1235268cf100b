/** `FakeDrive`: the registry of faked disks and the lookups across them. */
module Fake {
  import opened Wrappers

  /** A faked disk's driver, seen through `exists`: the set of paths it holds. */
  datatype FakeDriver = FakeDriver(files: set<string>) {
    predicate Exists(path: string) { path in files }
  }

  /** Some registered fake holds `path`. */
  predicate AnyHolds(fakes: map<string, FakeDriver>, path: string) {
    exists d | d in fakes :: fakes[d].Exists(path)
  }

  class FakeDrive {
    /** The fakes by disk name. */
    var fakes: map<string, FakeDriver>

    constructor ()
      ensures fakes == map[]
    {
      fakes := map[];
    }

    /** `exists`: ask the fakes one at a time, stopping at the first that holds `path`. */
    method Exists(path: string) returns (found: bool)
      ensures found <==> AnyHolds(fakes, path)
      ensures fakes == map[] ==> !found
    {
      var remaining := fakes.Keys;
      while remaining != {}
        invariant remaining <= fakes.Keys
        invariant forall d | d in fakes.Keys - remaining :: !fakes[d].Exists(path)
        decreases remaining
      {
        var d :| d in remaining;
        var fake := fakes[d];
        if fake.Exists(path) {
          return true;
        }
        remaining := remaining - {d};
      }
      return false;
    }

    /** `use`: the fake under `disk`; `None` stands for the `undefined` a missing entry gives. */
    function Use(disk: string): (r: Option<FakeDriver>)
      reads this
      ensures r.Some? <==> IsFaked(disk)
      ensures r.Some? ==> r.value == fakes[disk]
    {
      if disk in fakes then Some(fakes[disk]) else None
    }

    function IsFaked(disk: string): (r: bool)
      reads this
      ensures r <==> disk in fakes.Keys
    {
      disk in fakes
    }

    /** `restore`: drop `disk`'s fake, a no-op when there is none. */
    method Restore(disk: string)
      modifies this
      ensures fakes == old(fakes) - {disk}
      ensures !IsFaked(disk)
      ensures forall d | d != disk :: IsFaked(d) == old(IsFaked(d)) && Use(d) == old(Use(d))
      ensures disk !in old(fakes) ==> fakes == old(fakes)
    {
      fakes := fakes - {disk};
    }
  }

  /** Dropping a fake that does not hold the path does not change what `exists` answers. */
  lemma RestoreKeepsOtherAnswers(fakes: map<string, FakeDriver>, disk: string, path: string)
    requires disk in fakes ==> !fakes[disk].Exists(path)
    ensures AnyHolds(fakes - {disk}, path) == AnyHolds(fakes, path)
  {
    if AnyHolds(fakes, path) {
      var d :| d in fakes && fakes[d].Exists(path);
      assert d in fakes - {disk};
    }
  }
}
