/** Loading the profile store from browser storage (with the one-shot migration of the
    legacy flat list) and writing it back after every change. */
module Persistence {
  import opened Types

  const ProfilesKey := "promptVaultProfiles"
  const LegacyPromptsKey := "promptVaultPrompts"
  const DefaultProfile := "Default Profile"
  const LoadErrorMessage := "Could not load your profile data."
  const SaveErrorMessage := "Could not save your profile data."

  /** `JSON.stringify` and `JSON.parse` at the two stored shapes. A parse may fail (None),
      which the source sees as a thrown exception. */
  datatype Codec = Codec(
    encode: ProfilesData -> string,
    decodeData: string -> Option<ProfilesData>,
    decodePrompts: string -> Option<seq<Prompt>>)

  /** What JSON guarantees and the store relies on: the text of an object is never empty,
      and parsing it gives the object back. */
  ghost predicate Lossless(c: Codec) {
    forall d :: c.encode(d) != "" && c.decodeData(c.encode(d)) == Some(d)
  }

  /** The root built from a legacy list: one profile named "Default Profile", signed in. */
  function Migrated(legacy: seq<Prompt>): ProfilesData {
    ProfilesData(Some(DefaultProfile), map[DefaultProfile := Profile(legacy)])
  }

  /** `if (storedValue)`: present and not the empty string. */
  predicate Holds(items: map<string, string>, key: string) {
    key in items && items[key] != ""
  }

  /** The effect of the load routine: the storage it leaves, and the values it passed to
      `setProfilesData` and `setError` (None: not called). */
  datatype LoadEffect = LoadEffect(items: map<string, string>, setData: Option<ProfilesData>, setError: Option<string>)

  /** The load routine. `full` says that the storage refuses writes (`setItem` throws).
      The only error it reports is the load message. It changes storage only by writing the
      root it loaded (the migrated one) under the current key and removing the legacy entry,
      and when that write is refused it keeps the loaded root but reports the error. */
  function LoadSpec(items: map<string, string>, full: bool, codec: Codec): (e: LoadEffect)
    ensures e.setError.None? || e.setError == Some(LoadErrorMessage)
    ensures || e.items == items
            || (!full && e.setData.Some?
                && e.items == items[ProfilesKey := codec.encode(e.setData.value)] - {LegacyPromptsKey})
    ensures e.setData.Some? && e.setError.Some? ==> full && e.items == items
  {
    if Holds(items, ProfilesKey) then
      match codec.decodeData(items[ProfilesKey])
      case Some(d) => LoadEffect(items, Some(d), None)
      case None => LoadEffect(items, None, Some(LoadErrorMessage))
    else if Holds(items, LegacyPromptsKey) then
      match codec.decodePrompts(items[LegacyPromptsKey])
      case None => LoadEffect(items, None, Some(LoadErrorMessage))
      case Some(legacy) =>
        if |legacy| == 0 then LoadEffect(items, None, None)
        else if full then LoadEffect(items, Some(Migrated(legacy)), Some(LoadErrorMessage))
        else
          var written := items[ProfilesKey := codec.encode(Migrated(legacy))];
          LoadEffect(written - {LegacyPromptsKey}, Some(Migrated(legacy)), None)
    else LoadEffect(items, None, None)
  }

  /** The value `setProfilesData` leaves, starting from the component's initial state. */
  function DataAfter(e: LoadEffect): ProfilesData {
    match e.setData
    case Some(d) => d
    case None => EmptyData
  }

  /** Current-format data is used as parsed; the legacy entry is neither read nor removed and
      nothing is written. */
  lemma LoadPassThrough(items: map<string, string>, full: bool, codec: Codec)
    requires Holds(items, ProfilesKey) && codec.decodeData(items[ProfilesKey]).Some?
    ensures var e := LoadSpec(items, full, codec);
      && e.items == items
      && e.setData == codec.decodeData(items[ProfilesKey])
      && e.setError.None?
      && forall c: Codec :: c.decodeData == codec.decodeData ==> LoadSpec(items, full, c) == e
  {
  }

  /** Without current-format data, a non-empty legacy list becomes the "Default Profile",
      signed in, prompts in their original order; the new root is written under the current
      key and the legacy entry is removed, everything else kept. */
  lemma LoadMigrates(items: map<string, string>, codec: Codec)
    requires !Holds(items, ProfilesKey) && Holds(items, LegacyPromptsKey)
    requires codec.decodePrompts(items[LegacyPromptsKey]).Some?
    requires |codec.decodePrompts(items[LegacyPromptsKey]).value| > 0
    ensures var legacy := codec.decodePrompts(items[LegacyPromptsKey]).value;
      var e := LoadSpec(items, false, codec);
      && e.setData == Some(Migrated(legacy))
      && e.setError.None?
      && Migrated(legacy).currentUser == Some(DefaultProfile)
      && Migrated(legacy).profiles[DefaultProfile].prompts == legacy
      && e.items.Keys == items.Keys + {ProfilesKey} - {LegacyPromptsKey}
      && e.items[ProfilesKey] == codec.encode(Migrated(legacy))
      && forall k :: k in items && k != ProfilesKey && k != LegacyPromptsKey ==> e.items[k] == items[k]
  {
  }

  /** With neither key, or an empty legacy list, nothing is written or removed (an empty
      legacy list stays in storage) and the state stays the empty default. */
  lemma LoadNoOp(items: map<string, string>, full: bool, codec: Codec)
    requires !Holds(items, ProfilesKey)
    requires !Holds(items, LegacyPromptsKey)
      || codec.decodePrompts(items[LegacyPromptsKey]) == Some([])
    ensures var e := LoadSpec(items, full, codec);
      e.items == items && DataAfter(e) == EmptyData && e.setError.None?
  {
  }

  /** A parse failure reports "Could not load your profile data." and keeps the empty
      default; storage is left alone. */
  lemma LoadFailureKeepsDefault(items: map<string, string>, full: bool, codec: Codec)
    requires
      || (Holds(items, ProfilesKey) && codec.decodeData(items[ProfilesKey]).None?)
      || (!Holds(items, ProfilesKey) && Holds(items, LegacyPromptsKey)
          && codec.decodePrompts(items[LegacyPromptsKey]).None?)
    ensures var e := LoadSpec(items, full, codec);
      e.items == items && DataAfter(e) == EmptyData && e.setError == Some(LoadErrorMessage)
  {
  }

  /** Loading is stable: loading again from what a load left behind reaches the same state
      and error, and writes and removes nothing, whether or not storage is full. With
      writable storage a migration therefore happens at most once; with full storage the
      legacy entry stays and every load migrates it again, to the same state. */
  lemma ReloadIsStable(items: map<string, string>, full: bool, codec: Codec)
    requires Lossless(codec)
    ensures var first := LoadSpec(items, full, codec);
      var second := LoadSpec(first.items, full, codec);
      && second.items == first.items
      && DataAfter(second) == DataAfter(first)
      && second.setError == first.setError
  {
    var first := LoadSpec(items, full, codec);
    if !Holds(items, ProfilesKey) && Holds(items, LegacyPromptsKey) {
      match codec.decodePrompts(items[LegacyPromptsKey])
      case None =>
      case Some(legacy) =>
        if |legacy| > 0 && !full {
          var m := Migrated(legacy);
          assert codec.encode(m) != "" && codec.decodeData(codec.encode(m)) == Some(m);
          assert Holds(first.items, ProfilesKey);
        }
    }
  }

  /** The write-back effect, once loading is over: the current root is written under the
      current key; a refused write sets "Could not save your profile data.". */
  function SaveSpec(items: map<string, string>, full: bool, isLoaded: bool, data: ProfilesData, codec: Codec):
    (r: (map<string, string>, Option<string>))
    ensures !isLoaded ==> r == (items, None)
    ensures isLoaded && !full ==>
      && r.1.None?
      && r.0.Keys == items.Keys + {ProfilesKey}
      && r.0[ProfilesKey] == codec.encode(data)
      && (forall k :: k in items && k != ProfilesKey ==> r.0[k] == items[k])
      && (Lossless(codec) ==> codec.decodeData(r.0[ProfilesKey]) == Some(data))
    ensures isLoaded && full ==> r == (items, Some(SaveErrorMessage))
  {
    if !isLoaded then (items, None)
    else if full then (items, Some(SaveErrorMessage))
    else (items[ProfilesKey := codec.encode(data)], None)
  }

  /** Mounting the application: the load routine, then the write-back that follows once
      `isLoaded` is set. Gives the storage, the state and the error shown. With writable
      storage the current key then holds the state shown (and reads back as it with a
      lossless codec); with full storage nothing is stored and the save error is shown. */
  function MountSpec(items: map<string, string>, full: bool, codec: Codec): (r: (map<string, string>, ProfilesData, Option<string>))
    ensures !full ==> ProfilesKey in r.0 && r.0[ProfilesKey] == codec.encode(r.1)
    ensures !full && Lossless(codec) ==> codec.decodeData(r.0[ProfilesKey]) == Some(r.1)
    ensures full ==> r.0 == items && r.2 == Some(SaveErrorMessage)
  {
    var e := LoadSpec(items, full, codec);
    var (stored, saveError) := SaveSpec(e.items, full, true, DataAfter(e), codec);
    (stored, DataAfter(e), if saveError.Some? then saveError else e.setError)
  }

  /** After a mount with writable storage the current key holds the loaded state, so a second
      mount is a pure pass-through: same state, no error, storage unchanged. */
  lemma RemountIsPassThrough(items: map<string, string>, codec: Codec)
    requires Lossless(codec)
    ensures var (stored, data, _) := MountSpec(items, false, codec);
      var (stored2, data2, error2) := MountSpec(stored, false, codec);
      && Holds(stored, ProfilesKey)
      && stored2 == stored && data2 == data && error2.None?
  {
    var e := LoadSpec(items, false, codec);
    var data := DataAfter(e);
    var stored := e.items[ProfilesKey := codec.encode(data)];
    assert codec.encode(data) != "" && codec.decodeData(codec.encode(data)) == Some(data);
    assert stored[ProfilesKey := codec.encode(data)] == stored;
  }

  /** Stored data that cannot be parsed is not kept: the write-back after the failed load
      replaces it with the empty default. */
  lemma UnreadableDataIsReplaced(items: map<string, string>, codec: Codec)
    requires Holds(items, ProfilesKey) && codec.decodeData(items[ProfilesKey]).None?
    ensures var (stored, data, error) := MountSpec(items, false, codec);
      && data == EmptyData
      && error == Some(LoadErrorMessage)
      && stored == items[ProfilesKey := codec.encode(EmptyData)]
  {
  }

  /** `window.localStorage`: a key-value store whose writes throw when it is full. */
  class Storage {
    var items: map<string, string>
    var full: bool

    constructor (items0: map<string, string>, full0: bool)
      ensures items == items0 && full == full0
    {
      items, full := items0, full0;
    }

    /** `getItem`: the stored text, or null. */
    method GetItem(key: string) returns (v: Option<string>)
      ensures v == if key in items then Some(items[key]) else None
    {
      v := if key in items then Some(items[key]) else None;
    }

    /** `setItem`: stores the text, or throws (`ok` false) when the storage is full. */
    method SetItem(key: string, value: string) returns (ok: bool)
      modifies this`items
      ensures ok == !full
      ensures items == if ok then old(items)[key := value] else old(items)
    {
      ok := !full;
      if ok {
        items := items[key := value];
      }
    }

    /** `removeItem`. */
    method RemoveItem(key: string)
      modifies this`items
      ensures items == old(items) - {key}
    {
      items := items - {key};
    }
  }

  /** The application shell's persisted state: the profile root, whether loading is over,
      and the error banner. */
  class App {
    var data: ProfilesData
    var isLoaded: bool
    var error: Option<string>

    constructor ()
      ensures data == EmptyData && !isLoaded && error.None?
    {
      data, isLoaded, error := EmptyData, false, None;
    }

    /** The load effect run on mount. However it ends, `isLoaded` is set. */
    method Load(store: Storage, codec: Codec)
      modifies this, store`items
      ensures var e := LoadSpec(old(store.items), store.full, codec);
        && store.items == e.items
        && data == (if e.setData.Some? then e.setData.value else old(data))
        && error == (if e.setError.Some? then e.setError else old(error))
        && isLoaded
    {
      var stored := store.GetItem(ProfilesKey);
      if stored.Some? && stored.value != "" {
        var parsed := codec.decodeData(stored.value);
        if parsed.Some? {
          data := parsed.value;
        } else {
          error := Some(LoadErrorMessage);
        }
      } else {
        var legacyText := store.GetItem(LegacyPromptsKey);
        if legacyText.Some? && legacyText.value != "" {
          var legacy := codec.decodePrompts(legacyText.value);
          if legacy.None? {
            error := Some(LoadErrorMessage);
          } else if |legacy.value| > 0 {
            var migrated := Migrated(legacy.value);
            data := migrated;
            var ok := store.SetItem(ProfilesKey, codec.encode(migrated));
            if ok {
              store.RemoveItem(LegacyPromptsKey);
            } else {
              error := Some(LoadErrorMessage);
            }
          }
        }
      }
      isLoaded := true;
    }

    /** The write-back effect: does nothing before loading is over. */
    method Persist(store: Storage, codec: Codec)
      modifies store`items, this`error
      ensures var (items, saveError) := SaveSpec(old(store.items), store.full, isLoaded, data, codec);
        && store.items == items
        && error == (if saveError.Some? then saveError else old(error))
    {
      if isLoaded {
        var ok := store.SetItem(ProfilesKey, codec.encode(data));
        if !ok {
          error := Some(SaveErrorMessage);
        }
      }
    }

    /** Mounting: the load effect, then the write-back it triggers. */
    method Mount(store: Storage, codec: Codec)
      requires data == EmptyData && !isLoaded && error.None?
      modifies this, store`items
      ensures (store.items, data, error) == MountSpec(old(store.items), store.full, codec)
    {
      Load(store, codec);
      Persist(store, codec);
    }
  }
}
