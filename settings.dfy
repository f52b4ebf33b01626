/**
 * The settings store (src/contexts/SettingsContext.tsx): two preference
 * flags, loaded once from the browser's string-keyed storage, merged
 * field-by-field over the defaults, and written through to storage on every
 * update. The provider renders nothing until the load has run.
 *
 * Storage is a `map<string, string>` field. `JSON.parse` is a parameter of
 * the load: a function from the stored text to either the fields it found or
 * a parse failure. `JSON.stringify` of the two-field object is written out.
 */
module Settings {
  import opened Wrappers

  datatype Settings = Settings(bgmEnabled: bool, ttsEnabled: bool)

  /** Background music off, narration on. */
  const Defaults: Settings := Settings(bgmEnabled := false, ttsEnabled := true)

  /** The storage key the settings live under. */
  const StorageKey: string := "dokdo-settings"

  /** A `Partial<Settings>`: the fields an update (or a parsed blob) carries. */
  datatype Partial = Partial(bgmEnabled: Option<bool>, ttsEnabled: Option<bool>)

  /** What `JSON.parse` made of the stored text. */
  datatype ParseOutcome = Parsed(fields: Partial) | ParseError

  /** `{ ...s, ...p }`: the fields present in `p` replace those of `s`. */
  function Merge(s: Settings, p: Partial): (r: Settings)
    ensures p.bgmEnabled.Some? ==> r.bgmEnabled == p.bgmEnabled.value
    ensures p.bgmEnabled.None? ==> r.bgmEnabled == s.bgmEnabled
    ensures p.ttsEnabled.Some? ==> r.ttsEnabled == p.ttsEnabled.value
    ensures p.ttsEnabled.None? ==> r.ttsEnabled == s.ttsEnabled
  {
    Settings(
      bgmEnabled := if p.bgmEnabled.Some? then p.bgmEnabled.value else s.bgmEnabled,
      ttsEnabled := if p.ttsEnabled.Some? then p.ttsEnabled.value else s.ttsEnabled)
  }

  /** Every field of `s`, as a partial. */
  function AllFields(s: Settings): Partial {
    Partial(Some(s.bgmEnabled), Some(s.ttsEnabled))
  }

  /** `{ ...p, ...q }` on partials. */
  function Combine(p: Partial, q: Partial): Partial {
    Partial(
      if q.bgmEnabled.Some? then q.bgmEnabled else p.bgmEnabled,
      if q.ttsEnabled.Some? then q.ttsEnabled else p.ttsEnabled)
  }

  /** Applying the same partial twice is applying it once. */
  lemma MergeIdempotent(s: Settings, p: Partial)
    ensures Merge(Merge(s, p), p) == Merge(s, p)
  {
  }

  /** Two updates in a row are one update with the later fields winning. */
  lemma MergeComposes(s: Settings, p: Partial, q: Partial)
    ensures Merge(Merge(s, p), q) == Merge(s, Combine(p, q))
  {
  }

  /** An empty partial changes nothing; a full one replaces everything. */
  lemma MergeExtremes(s: Settings, t: Settings)
    ensures Merge(s, Partial(None, None)) == s
    ensures Merge(s, AllFields(t)) == t
  {
  }

  function BoolText(b: bool): string {
    if b then "true" else "false"
  }

  /** `JSON.stringify` of the settings object, fields in declaration order. */
  function Serialize(s: Settings): (text: string)
    ensures |text| >= 2 && text[0] == '{' && text[|text| - 1] == '}'
  {
    "{\"bgmEnabled\":" + BoolText(s.bgmEnabled) + ",\"ttsEnabled\":" + BoolText(s.ttsEnabled) + "}"
  }

  /** Different settings are stored as different text. */
  lemma SerializeInjective(s: Settings, t: Settings)
    requires Serialize(s) == Serialize(t)
    ensures s == t
  {
    var a := Serialize(s);
    var b := Serialize(t);
    assert a[14] == (if s.bgmEnabled then 't' else 'f');
    assert b[14] == (if t.bgmEnabled then 't' else 'f');
    var n := 14 + |BoolText(s.bgmEnabled)| + 14;
    assert a[n] == (if s.ttsEnabled then 't' else 'f');
    assert b[n] == (if t.ttsEnabled then 't' else 'f');
  }

  /** A parser that reads back what `JSON.stringify` wrote. */
  ghost predicate ReadsBackSerialized(parse: string -> ParseOutcome) {
    forall s :: parse(Serialize(s)) == Parsed(AllFields(s))
  }

  /**
   * The settings the load effect arrives at for a given storage: defaults
   * when nothing (or "") is stored, defaults overridden by the parsed fields
   * when the text parses, exactly the defaults when it does not.
   */
  function LoadedFrom(storage: map<string, string>, parse: string -> ParseOutcome): Settings {
    if StorageKey in storage && storage[StorageKey] != "" then
      match parse(storage[StorageKey])
      case Parsed(fields) => Merge(Defaults, fields)
      case ParseError => Defaults
    else Defaults
  }

  lemma LoadCases(storage: map<string, string>, parse: string -> ParseOutcome)
    ensures StorageKey !in storage ==> LoadedFrom(storage, parse) == Defaults
    ensures StorageKey in storage && storage[StorageKey] == "" ==> LoadedFrom(storage, parse) == Defaults
    ensures StorageKey in storage && storage[StorageKey] != "" && parse(storage[StorageKey]) == ParseError
            ==> LoadedFrom(storage, parse) == Defaults
    ensures StorageKey in storage && storage[StorageKey] != "" && parse(storage[StorageKey]).Parsed?
            ==> var p := parse(storage[StorageKey]).fields;
                && (p.bgmEnabled.None? ==> LoadedFrom(storage, parse).bgmEnabled == Defaults.bgmEnabled)
                && (p.ttsEnabled.None? ==> LoadedFrom(storage, parse).ttsEnabled == Defaults.ttsEnabled)
                && (p.bgmEnabled.Some? ==> LoadedFrom(storage, parse).bgmEnabled == p.bgmEnabled.value)
                && (p.ttsEnabled.Some? ==> LoadedFrom(storage, parse).ttsEnabled == p.ttsEnabled.value)
  {
  }

  /** After an update, a fresh load from the same storage sees the updated settings. */
  lemma ReloadSeesUpdate(storage: map<string, string>, s: Settings, parse: string -> ParseOutcome)
    requires ReadsBackSerialized(parse)
    ensures LoadedFrom(storage[StorageKey := Serialize(s)], parse) == s
  {
    assert parse(Serialize(s)) == Parsed(AllFields(s));
    assert Serialize(s) != "";
  }

  /** `useSettings`: the context value, or the error raised outside a provider. */
  function UseSettings(context: Option<Settings>): (r: Result<Settings, string>)
    ensures r.Err? <==> context.None?
    ensures r.Err? ==> r.error == "useSettings must be used within a SettingsProvider"
    ensures r.Ok? ==> r.value == context.value
  {
    match context
    case None => Err("useSettings must be used within a SettingsProvider")
    case Some(s) => Ok(s)
  }

  /** The `SettingsProvider` together with the browser storage it reads and writes. */
  class Store {
    var settings: Settings
    var isLoaded: bool
    var storage: map<string, string>

    /** Mounting the provider: defaults in memory, not yet loaded. */
    constructor (storage: map<string, string>)
      ensures settings == Defaults && !isLoaded && this.storage == storage
    {
      settings := Defaults;
      isLoaded := false;
      this.storage := storage;
    }

    /** What the provider hands its children: nothing at all until loaded. */
    function Rendered(): (r: Option<Settings>)
      reads this
      ensures r.Some? <==> isLoaded
      ensures r.Some? ==> r.value == settings
    {
      if isLoaded then Some(settings) else None
    }

    /** The load effect. */
    method Load(parse: string -> ParseOutcome)
      requires !isLoaded && settings == Defaults
      modifies this
      ensures settings == LoadedFrom(storage, parse)
      ensures isLoaded && storage == old(storage)
    {
      if StorageKey in storage && storage[StorageKey] != "" {
        var saved := storage[StorageKey];
        match parse(saved)
        case Parsed(fields) =>
          settings := Merge(Defaults, fields);
        case ParseError =>
          settings := Defaults;
      }
      isLoaded := true;
    }

    /** `updateSettings`: merge, then write the merged settings through to storage. */
    method Update(p: Partial)
      requires isLoaded
      modifies this
      ensures settings == Merge(old(settings), p)
      ensures storage == old(storage)[StorageKey := Serialize(settings)]
      ensures isLoaded
    {
      var updated := Merge(settings, p);
      storage := storage[StorageKey := Serialize(updated)];
      settings := updated;
    }
  }

  /** Updating twice with the same partial leaves memory and storage as updating once. */
  method UpdateTwice(store: Store, p: Partial)
    requires store.isLoaded
    modifies store
    ensures store.settings == Merge(old(store.settings), p)
    ensures store.storage == old(store.storage)[StorageKey := Serialize(store.settings)]
    ensures store.isLoaded
  {
    store.Update(p);
    store.Update(p);
    MergeIdempotent(old(store.settings), p);
  }
}
