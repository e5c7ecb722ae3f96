/** The part of Syncthing's configuration that dotkeeper reads and edits, and
    internal/stclient/client.go, which edits it through a cached copy. */
module Syncthing {
  import opened Base

  const FOLDER_MARKER_NAME: string := ".dkfolder"
  const CANONICAL_RESCAN_INTERVAL_S: int := 0
  const CANONICAL_FS_WATCHER_ENABLED: bool := true
  const CANONICAL_FS_WATCHER_DELAY_S: int := 1
  const CANONICAL_HASHERS: int := 1

  /** One entry of a folder's device list. `user` holds every key dotkeeper never writes. */
  datatype FolderDevice = FolderDevice(deviceID: string, introducedBy: string, user: map<string, string>)

  /** One folder record. `user` holds every key dotkeeper never writes. */
  datatype Folder = Folder(
    id: string, title: string, path: Path, kind: string, devices: seq<FolderDevice>,
    rescanIntervalS: int, fsWatcherEnabled: bool, fsWatcherDelayS: int, hashers: int,
    ignorePerms: bool, autoNormalize: bool, markerName: string, paused: bool,
    user: map<string, string>)

  datatype Device = Device(
    deviceID: string, name: string, autoAcceptFolders: bool, user: map<string, string>)

  datatype Config = Config(folders: seq<Folder>, devices: seq<Device>, user: map<string, string>)

  // ---------------------------------------------------------------- folder records

  function Lookup(fs: seq<Folder>, id: string): (r: Option<Folder>)
    ensures r.Some? ==> r.value in fs && r.value.id == id
    ensures r.None? ==> forall f :: f in fs ==> f.id != id
  {
    if fs == [] then None else if fs[0].id == id then Some(fs[0]) else Lookup(fs[1..], id)
  }

  ghost predicate DistinctIds(fs: seq<Folder>) {
    forall i, j :: 0 <= i < j < |fs| ==> fs[i].id != fs[j].id
  }

  /** The device entries written for a requested share list: never the local device, never blank, and
      always fresh, so whatever else an earlier entry held is lost. */
  function FolderDevices(deviceIDs: seq<string>, myID: string): (r: seq<FolderDevice>) {
    if deviceIDs == [] then []
    else if deviceIDs[0] != myID && deviceIDs[0] != "" then
      [FolderDevice(deviceIDs[0], "", map[])] + FolderDevices(deviceIDs[1..], myID)
    else FolderDevices(deviceIDs[1..], myID)
  }

  /** An edit of one folder record. */
  datatype Patch =
    | Managed(title: string, path: Path, devices: seq<FolderDevice>)
    | Schedule
    | SetPaused(paused: bool)
    | SetDevices(refs: seq<FolderDevice>)

  function Scheduled(f: Folder): Folder {
    f.(rescanIntervalS := CANONICAL_RESCAN_INTERVAL_S,
       fsWatcherEnabled := CANONICAL_FS_WATCHER_ENABLED,
       fsWatcherDelayS := CANONICAL_FS_WATCHER_DELAY_S,
       hashers := CANONICAL_HASHERS)
  }

  function Patched(f: Folder, p: Patch): Folder {
    match p
    case Managed(title, path, devices) =>
      Scheduled(f).(title := title, path := path, devices := devices, markerName := FOLDER_MARKER_NAME)
    case Schedule => Scheduled(f)
    case SetPaused(b) => f.(paused := b)
    case SetDevices(refs) => f.(devices := refs)
  }

  /** Patch the first record with the given ID, as every edit loop does. */
  function UpdateFirst(fs: seq<Folder>, id: string, p: Patch): (r: seq<Folder>)
    ensures |r| == |fs|
  {
    if fs == [] then []
    else if fs[0].id == id then [Patched(fs[0], p)] + fs[1..]
    else [fs[0]] + UpdateFirst(fs[1..], id, p)
  }

  function NewFolder(id: string, title: string, path: Path, devices: seq<FolderDevice>): Folder {
    Folder(id, title, path, "sendreceive", devices,
           CANONICAL_RESCAN_INTERVAL_S, CANONICAL_FS_WATCHER_ENABLED, CANONICAL_FS_WATCHER_DELAY_S,
           CANONICAL_HASHERS, false, true, FOLDER_MARKER_NAME, false, map[])
  }

  function WithFolder(cfg: Config, myID: string, id: string, title: string, path: Path,
                      deviceIDs: seq<string>): Config
  {
    var refs := FolderDevices(deviceIDs, myID);
    if Lookup(cfg.folders, id).Some? then
      cfg.(folders := UpdateFirst(cfg.folders, id, Managed(title, path, refs)))
    else
      cfg.(folders := cfg.folders + [NewFolder(id, title, path, refs)])
  }

  /** An edit of an existing folder; the folder's absence is an error. */
  function WithPatch(cfg: Config, id: string, p: Patch): Result<Config> {
    if Lookup(cfg.folders, id).Some? then Ok(cfg.(folders := UpdateFirst(cfg.folders, id, p))) else Err
  }

  function WithoutID(fs: seq<Folder>, id: string): (r: seq<Folder>)
    ensures |r| <= |fs|
    ensures forall f :: f in r ==> f in fs && f.id != id
  {
    if fs == [] then []
    else if fs[0].id != id then [fs[0]] + WithoutID(fs[1..], id)
    else WithoutID(fs[1..], id)
  }

  lemma {:induction false} LookupAfterUpdate(fs: seq<Folder>, id: string, p: Patch, x: string)
    ensures Lookup(UpdateFirst(fs, id, p), x) ==
            if x == id && Lookup(fs, id).Some? then Some(Patched(Lookup(fs, id).value, p)) else Lookup(fs, x)
  {
    if fs != [] && fs[0].id != id {
      LookupAfterUpdate(fs[1..], id, p, x);
      assert UpdateFirst(fs, id, p)[1..] == UpdateFirst(fs[1..], id, p);
    } else if fs != [] {
      assert UpdateFirst(fs, id, p)[1..] == fs[1..];
    }
  }

  lemma {:induction false} LookupAfterAppend(fs: seq<Folder>, f: Folder, x: string)
    ensures Lookup(fs + [f], x) ==
            if Lookup(fs, x).Some? then Lookup(fs, x) else if f.id == x then Some(f) else None
  {
    if fs == [] {
      assert fs + [f] == [f] && [f][1..] == [];
    } else {
      assert (fs + [f])[1..] == fs[1..] + [f];
      LookupAfterAppend(fs[1..], f, x);
    }
  }

  lemma {:induction false} LookupAfterRemove(fs: seq<Folder>, id: string, x: string)
    ensures Lookup(WithoutID(fs, id), x) == if x == id then None else Lookup(fs, x)
  {
    if fs != [] {
      LookupAfterRemove(fs[1..], id, x);
      if fs[0].id != id {
        assert WithoutID(fs, id)[1..] == WithoutID(fs[1..], id);
      }
    }
  }

  lemma {:induction false} UpdateKeepsIds(fs: seq<Folder>, id: string, p: Patch)
    ensures forall i :: 0 <= i < |fs| ==> UpdateFirst(fs, id, p)[i].id == fs[i].id
  {
    if fs != [] && fs[0].id != id { UpdateKeepsIds(fs[1..], id, p); }
  }

  lemma {:induction false} RemoveKeepsDistinct(fs: seq<Folder>, id: string)
    requires DistinctIds(fs)
    ensures DistinctIds(WithoutID(fs, id))
  {
    if fs != [] {
      RemoveKeepsDistinct(fs[1..], id);
      if fs[0].id != id {
        var r := WithoutID(fs[1..], id);
        forall j | 0 <= j < |r| ensures r[j].id != fs[0].id {
          assert r[j] in fs[1..];
        }
      }
    }
  }

  // ---------------------------------------------------------------- device records

  predicate HasDevice(ds: seq<Device>, id: string) {
    exists d :: d in ds && d.deviceID == id
  }

  function NewDevice(id: string, name: string): Device {
    Device(id, name, false, map["compression" := "metadata", "addresses" := "dynamic", "introducer" := "false"])
  }

  /** Clear auto-accept on the first record of the device, or append a fresh record. */
  function WithDevice(ds: seq<Device>, id: string, name: string): seq<Device> {
    if ds == [] then [NewDevice(id, name)]
    else if ds[0].deviceID == id then [ds[0].(autoAcceptFolders := false)] + ds[1..]
    else [ds[0]] + WithDevice(ds[1..], id, name)
  }

  /** `AddDevice` leaves the device configured, keeps every other record and every user field. */
  lemma {:induction false} AddDeviceKeepsOthers(ds: seq<Device>, id: string, name: string)
    ensures HasDevice(WithDevice(ds, id, name), id)
    ensures |ds| <= |WithDevice(ds, id, name)| <= |ds| + 1
    ensures forall i :: 0 <= i < |ds| ==>
              var d := WithDevice(ds, id, name)[i];
              d == ds[i] || (ds[i].deviceID == id && d == ds[i].(autoAcceptFolders := false))
  {
    var r := WithDevice(ds, id, name);
    if ds == [] {
      assert r[0].deviceID == id;
    } else if ds[0].deviceID == id {
      assert r[0].deviceID == id;
    } else {
      AddDeviceKeepsOthers(ds[1..], id, name);
      var d :| d in WithDevice(ds[1..], id, name) && d.deviceID == id;
      assert d in r;
    }
  }

  /** The first record with the ID is the `i`th, and auto-accepts nothing afterwards. */
  predicate ClearedAt(ds: seq<Device>, r: seq<Device>, id: string, i: nat) {
    && i < |ds| && ds[i].deviceID == id && (forall j :: 0 <= j < i ==> ds[j].deviceID != id)
    && r == ds[i := Device(id, ds[i].name, false, ds[i].user)]
  }

  /** The device is on the first record with its ID, which auto-accepts nothing and is otherwise as it was; without one,
      on a new record at the end, under its name. */
  lemma {:induction false} AddedDevice(ds: seq<Device>, id: string, name: string) returns (i: nat)
    ensures HasDevice(ds, id) ==> ClearedAt(ds, WithDevice(ds, id, name), id, i)
    ensures !HasDevice(ds, id) ==>
              var fields := map["compression" := "metadata", "addresses" := "dynamic", "introducer" := "false"];
              WithDevice(ds, id, name) == ds + [Device(id, name, false, fields)]
  {
    i := 0;
    if ds != [] && ds[0].deviceID != id {
      HeadIsAnother(ds, id);
      hide HasDevice, ClearedAt;
      i := AddedDevice(ds[1..], id, name);
      if HasDevice(ds, id) {
        ClearedFurther(ds, WithDevice(ds[1..], id, name), id, i);
        i := i + 1;
      } else {
        var added := NewDevice(id, name);
        assert WithDevice(ds, id, name) == [ds[0]] + (ds[1..] + [added]) == ds + [added];
      }
    }
  }

  lemma HeadIsAnother(ds: seq<Device>, id: string)
    requires ds != [] && ds[0].deviceID != id
    ensures HasDevice(ds, id) <==> HasDevice(ds[1..], id)
  {
    assert ds == [ds[0]] + ds[1..];
  }

  lemma ClearedFurther(ds: seq<Device>, r: seq<Device>, id: string, i: nat)
    requires ds != [] && ds[0].deviceID != id && ClearedAt(ds[1..], r, id, i)
    ensures ClearedAt(ds, [ds[0]] + r, id, i + 1)
  {
    forall j | 0 < j < i + 1 ensures ds[j].deviceID != id { assert ds[j] == ds[1..][j - 1]; }
  }

  /** The entries written, one by one: a fresh one for each device that is neither the local one nor blank, in order. */
  lemma {:induction false} WrittenEntries(a: seq<string>, x: string, myID: string)
    ensures FolderDevices(a + [x], myID) ==
            FolderDevices(a, myID) + if x == "" || x == myID then [] else [FolderDevice(x, "", map[])]
    ensures FolderDevices([], myID) == []
  {
    if a == [] {
      assert [] + [x] == [x] && [x][1..] == [];
    } else {
      assert (a + [x])[1..] == a[1..] + [x];
      WrittenEntries(a[1..], x, myID);
    }
  }

  lemma DevicesSurvive(ds: seq<Device>, id: string, name: string, x: string)
    requires HasDevice(ds, x)
    ensures HasDevice(WithDevice(ds, id, name), x)
  {
    AddDeviceKeepsOthers(ds, id, name);
    var d :| d in ds && d.deviceID == x;
    var i :| 0 <= i < |ds| && ds[i] == d;
    assert WithDevice(ds, id, name)[i].deviceID == x;
  }

  // ---------------------------------------------------------------- the REST client

  /** The client with its memoised `/rest/config` response. `server` is Syncthing's own
      configuration; a request may fail as a whole unless the API is `reliable`, and nobody else
      writes meanwhile. */
  class Client {
    const myID: string
    const reliable: bool
    var server: Config
    var cached: Option<Config>

    ghost predicate Valid() reads this {
      cached.Some? ==> cached.value == server
    }

    constructor (myID: string, server: Config, reliable: bool)
      ensures Valid() && this.myID == myID && this.server == server && this.reliable == reliable
    {
      this.myID := myID;
      this.reliable := reliable;
      this.server := server;
      cached := None;
    }

    method GetConfig() returns (r: Result<Config>)
      requires Valid()
      modifies this`cached
      ensures Valid() && (r.Ok? ==> r.value == server) && (reliable ==> r.Ok?)
    {
      if cached.None? {
        var answered := Request();
        if !answered { return Err; }
        cached := Some(server);
      }
      r := Ok(cached.value);
    }

    /** Any one request. */
    method Request() returns (answered: bool)
      ensures reliable ==> answered
    {
      if * { return reliable; }
      return true;
    }

    method SetConfig(cfg: Config) returns (ok: bool)
      requires Valid()
      modifies this
      ensures Valid() && (reliable ==> ok)
      ensures server == if ok then cfg else old(server)
    {
      var answered := Request();
      if !answered { return false; }
      server := cfg;
      cached := None;
      ok := true;
    }

    method AddDevice(deviceID: string, name: string) returns (ok: bool)
      requires Valid()
      modifies this
      ensures Valid() && (reliable ==> ok)
      ensures ok ==> server == old(server).(devices := WithDevice(old(server).devices, deviceID, name))
      ensures !ok ==> server == old(server)
    {
      var got := GetConfig();
      if got.Err? { return false; }
      var cfg := got.value;
      var devices := cfg.devices;
      for i := 0 to |devices|
        invariant Valid() && server == old(server) == cfg && devices == cfg.devices
        invariant forall j :: 0 <= j < i ==> devices[j].deviceID != deviceID
      {
        if devices[i].deviceID == deviceID {
          FirstDevice(devices, i, deviceID, name);
          if devices[i].autoAcceptFolders {
            ok := SetConfig(cfg.(devices := devices[i := devices[i].(autoAcceptFolders := false)]));
            return;
          }
          assert devices[i := devices[i].(autoAcceptFolders := false)] == devices;
          return true;
        }
      }
      NoDevice(devices, deviceID, name);
      ok := SetConfig(cfg.(devices := devices + [NewDevice(deviceID, name)]));
    }

    method AddOrUpdateFolder(id: string, title: string, path: Path, deviceIDs: seq<string>) returns (ok: bool)
      requires Valid()
      modifies this
      ensures Valid() && (reliable ==> ok)
      ensures server == if ok then WithFolder(old(server), myID, id, title, path, deviceIDs) else old(server)
    {
      var got := GetConfig();
      if got.Err? { return false; }
      var refs := CollectDevices(deviceIDs);
      var folders, found := EditFirst(got.value.folders, id, Managed(title, path, refs));
      if !found {
        folders := folders + [NewFolder(id, title, path, refs)];
      }
      ok := SetConfig(got.value.(folders := folders));
    }

    /** UpdateFolderSchedule, SetFolderPaused and the applier's device replacement share one shape. */
    method PatchFolder(id: string, p: Patch) returns (ok: bool)
      requires Valid()
      modifies this
      ensures Valid() && (reliable && WithPatch(old(server), id, p).Ok? ==> ok)
      ensures ok ==> WithPatch(old(server), id, p) == Ok(server)
      ensures !ok ==> server == old(server)
    {
      var got := GetConfig();
      if got.Err? { return false; }
      var folders, found := EditFirst(got.value.folders, id, p);
      if !found { return false; }
      ok := SetConfig(got.value.(folders := folders));
    }

    method UpdateFolderSchedule(id: string) returns (ok: bool)
      requires Valid()
      modifies this
      ensures Valid() && (reliable && WithPatch(old(server), id, Schedule).Ok? ==> ok)
      ensures ok ==> WithPatch(old(server), id, Schedule) == Ok(server)
      ensures !ok ==> server == old(server)
    {
      ok := PatchFolder(id, Schedule);
    }

    method SetFolderPaused(id: string, paused: bool) returns (ok: bool)
      requires Valid()
      modifies this
      ensures Valid() && (reliable && WithPatch(old(server), id, SetPaused(paused)).Ok? ==> ok)
      ensures ok ==> WithPatch(old(server), id, SetPaused(paused)) == Ok(server)
      ensures !ok ==> server == old(server)
    {
      ok := PatchFolder(id, SetPaused(paused));
    }

    /** The applier's filter loop over the folder list; an absent folder needs no write. */
    method RemoveFolder(id: string) returns (ok: bool)
      requires Valid()
      modifies this
      ensures Valid() && (reliable ==> ok)
      ensures server == if ok then old(server).(folders := WithoutID(old(server).folders, id)) else old(server)
    {
      var got := GetConfig();
      if got.Err? { return false; }
      var folders := got.value.folders;
      var filtered := FilterOut(folders, id);
      if |filtered| == |folders| {
        NothingRemoved(folders, id);
        return true;
      }
      ok := SetConfig(got.value.(folders := filtered));
    }

    method CollectDevices(deviceIDs: seq<string>) returns (refs: seq<FolderDevice>)
      ensures refs == FolderDevices(deviceIDs, myID)
    {
      refs := [];
      for i := 0 to |deviceIDs|
        invariant refs + FolderDevices(deviceIDs[i..], myID) == FolderDevices(deviceIDs, myID)
      {
        assert deviceIDs[i..][1..] == deviceIDs[i + 1..];
        if deviceIDs[i] != myID && deviceIDs[i] != "" {
          refs := refs + [FolderDevice(deviceIDs[i], "", map[])];
        }
      }
    }
  }

  method FilterOut(fs: seq<Folder>, id: string) returns (filtered: seq<Folder>)
    ensures filtered == WithoutID(fs, id)
  {
    hide WithoutID;
    filtered := [];
    assert fs[0..] == fs;
    for i := 0 to |fs|
      invariant filtered + WithoutID(fs[i..], id) == WithoutID(fs, id)
    {
      WithoutFrom(fs, i, id);
      if fs[i].id != id {
        filtered := filtered + [fs[i]];
      }
    }
    WithoutNothing(fs, id);
  }

  lemma WithoutFrom(fs: seq<Folder>, i: nat, id: string)
    requires i < |fs|
    ensures WithoutID(fs[i..], id) == (if fs[i].id != id then [fs[i]] else []) + WithoutID(fs[i + 1..], id)
  {
    assert fs[i..][0] == fs[i] && fs[i..][1..] == fs[i + 1..];
  }

  lemma WithoutNothing(fs: seq<Folder>, id: string)
    ensures WithoutID(fs[|fs|..], id) == []
  {}

  lemma {:induction false} NothingRemoved(fs: seq<Folder>, id: string)
    requires |WithoutID(fs, id)| == |fs|
    ensures WithoutID(fs, id) == fs
  {
    if fs != [] { NothingRemoved(fs[1..], id); }
  }

  /** The find-and-edit loop: stops at the first record with the ID. */
  method EditFirst(fs: seq<Folder>, id: string, p: Patch) returns (r: seq<Folder>, found: bool)
    ensures r == UpdateFirst(fs, id, p)
    ensures found <==> Lookup(fs, id).Some?
    ensures !found ==> r == fs
  {
    for i := 0 to |fs|
      invariant forall j :: 0 <= j < i ==> fs[j].id != id
    {
      if fs[i].id == id {
        FirstFolder(fs, i, id, p);
        return fs[i := Patched(fs[i], p)], true;
      }
    }
    AbsentFolder(fs, id, p);
    return fs, false;
  }

  lemma {:induction false} FirstFolder(fs: seq<Folder>, i: nat, id: string, p: Patch)
    requires i < |fs| && fs[i].id == id
    requires forall j :: 0 <= j < i ==> fs[j].id != id
    ensures UpdateFirst(fs, id, p) == fs[i := Patched(fs[i], p)]
  {
    if i > 0 { FirstFolder(fs[1..], i - 1, id, p); }
  }

  lemma {:induction false} AbsentFolder(fs: seq<Folder>, id: string, p: Patch)
    requires forall j :: 0 <= j < |fs| ==> fs[j].id != id
    ensures UpdateFirst(fs, id, p) == fs
  {
    if fs != [] { AbsentFolder(fs[1..], id, p); }
  }

  lemma {:induction false} FirstDevice(ds: seq<Device>, i: nat, id: string, name: string)
    requires i < |ds| && ds[i].deviceID == id
    requires forall j :: 0 <= j < i ==> ds[j].deviceID != id
    ensures WithDevice(ds, id, name) == ds[i := ds[i].(autoAcceptFolders := false)]
  {
    if i > 0 { FirstDevice(ds[1..], i - 1, id, name); }
  }

  lemma {:induction false} NoDevice(ds: seq<Device>, id: string, name: string)
    requires forall j :: 0 <= j < |ds| ==> ds[j].deviceID != id
    ensures WithDevice(ds, id, name) == ds + [NewDevice(id, name)]
  {
    if ds != [] { NoDevice(ds[1..], id, name); }
  }
}
