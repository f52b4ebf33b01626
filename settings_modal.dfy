/**
 * The settings dialog (src/components/SettingsModal.tsx). It keeps no state
 * of its own: it is a function of `isOpen` and the current settings, and each
 * of its buttons makes one fixed call, either an update of a single field or
 * `onClose`.
 */
module SettingsModal {
  import opened Wrappers
  import opened Settings

  /** The clickable parts of the dialog. */
  datatype Control =
    | MusicOn | MusicOff          // 배경음 켜기 / 끄기
    | NarrationOn | NarrationOff  // 설명 듣기 켜기 / 끄기
    | Backdrop | CloseButton

  /** What a click on a control does. */
  datatype Effect = UpdateSettings(p: Partial) | CallOnClose

  function EffectOf(c: Control): (e: Effect)
    ensures c == Backdrop || c == CloseButton <==> e == CallOnClose
  {
    match c
    case MusicOn => UpdateSettings(Partial(Some(true), None))
    case MusicOff => UpdateSettings(Partial(Some(false), None))
    case NarrationOn => UpdateSettings(Partial(None, Some(true)))
    case NarrationOff => UpdateSettings(Partial(None, Some(false)))
    case Backdrop => CallOnClose
    case CloseButton => CallOnClose
  }

  /** The "on" button of a setting is highlighted iff the flag is set, the "off" one iff not. */
  function Highlighted(s: Settings, c: Control): bool {
    match c
    case MusicOn => s.bgmEnabled
    case MusicOff => !s.bgmEnabled
    case NarrationOn => s.ttsEnabled
    case NarrationOff => !s.ttsEnabled
    case Backdrop => false
    case CloseButton => false
  }

  /**
   * The settings after a click: a music button sets only `bgmEnabled`, a
   * narration button only `ttsEnabled`, closing touches nothing, and the
   * button clicked is the highlighted one afterwards.
   */
  function SettingsAfter(s: Settings, c: Control): (r: Settings)
    ensures c == MusicOn || c == MusicOff ==> r == s.(bgmEnabled := c == MusicOn)
    ensures c == NarrationOn || c == NarrationOff ==> r == s.(ttsEnabled := c == NarrationOn)
    ensures c == Backdrop || c == CloseButton ==> r == s
    ensures c != Backdrop && c != CloseButton ==> Highlighted(r, c)
  {
    match EffectOf(c)
    case UpdateSettings(p) => Merge(s, p)
    case CallOnClose => s
  }

  /** Of each setting's two buttons exactly one is highlighted: "on" iff the flag is set. */
  lemma OneOfEachPairHighlighted(s: Settings)
    ensures Highlighted(s, MusicOn) <==> s.bgmEnabled
    ensures Highlighted(s, MusicOn) != Highlighted(s, MusicOff)
    ensures Highlighted(s, NarrationOn) <==> s.ttsEnabled
    ensures Highlighted(s, NarrationOn) != Highlighted(s, NarrationOff)
  {
  }

  /** The setting buttons in the order shown, each with its highlight; nothing while closed. */
  function Rendered(isOpen: bool, s: Settings): (r: Option<seq<(Control, bool)>>)
    ensures r.None? <==> !isOpen
    ensures r.Some? ==>
      && |r.value| == 4
      && r.value[0].0 == MusicOn && r.value[1].0 == MusicOff
      && r.value[2].0 == NarrationOn && r.value[3].0 == NarrationOff
      && forall k :: 0 <= k < 4 ==> r.value[k].1 == Highlighted(s, r.value[k].0)
  {
    if !isOpen then None
    else Some([(MusicOn, s.bgmEnabled), (MusicOff, !s.bgmEnabled),
               (NarrationOn, s.ttsEnabled), (NarrationOff, !s.ttsEnabled)])
  }

  /** A click in the open dialog, applied to the store. */
  method Click(store: Store, c: Control) returns (closed: bool)
    requires store.isLoaded
    modifies store
    ensures closed <==> (c == Backdrop || c == CloseButton)
    ensures store.settings == SettingsAfter(old(store.settings), c)
    ensures closed ==> store.storage == old(store.storage)
    ensures !closed ==> store.storage == old(store.storage)[StorageKey := Serialize(store.settings)]
    ensures store.isLoaded
  {
    match EffectOf(c)
    case UpdateSettings(p) =>
      store.Update(p);
      closed := false;
    case CallOnClose =>
      closed := true;
  }
}
