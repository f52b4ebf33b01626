/**
 * The background-music controller (src/components/BGMPlayer.tsx): one lazily
 * created, looping, quiet audio element, played while `bgmEnabled` is set
 * and paused while it is not, released when the component unmounts.
 *
 * The browser's autoplay policy is a parameter: `playAllowed` says whether
 * the `play()` promise resolves or is rejected. A rejection is swallowed.
 */
module Bgm {
  import opened Wrappers

  /** The track's address (`BGM_URL`); the model lets it be absent or empty, as its type does. */
  const TrackUrl: Option<string> :=
    Some("https://ilsurrxsjrmcgxsiwgcu.supabase.co/storage/v1/object/public/Dockdo_edu_web_contects/acousticbreeze.mp3")

  const TrackVolume: real := 0.15

  /** An `HTMLAudioElement`, reduced to what the controller touches. */
  class AudioHandle {
    const src: string
    var loop: bool
    var volume: real
    var paused: bool

    /** `new Audio(src)`: paused, not looping, full volume. */
    constructor (src: string)
      ensures this.src == src && !loop && volume == 1.0 && paused
    {
      this.src := src;
      loop, volume, paused := false, 1.0, true;
    }

    /** `play()`: starts playback when allowed; a rejected attempt changes nothing. */
    method Play(playAllowed: bool)
      modifies this
      ensures paused == (old(paused) && !playAllowed)
      ensures loop == old(loop) && volume == old(volume)
    {
      if playAllowed {
        paused := false;
      }
    }

    method Pause()
      modifies this
      ensures paused
      ensures loop == old(loop) && volume == old(volume)
    {
      paused := true;
    }
  }

  class Player {
    const url: Option<string>
    /** `audioRef.current`. */
    var audio: AudioHandle?
    /** The `bgmEnabled` value the effect last ran with; None before the first run. */
    var lastEnabled: Option<bool>
    var mounted: bool

    /** `BGM_URL` is truthy: present and not the empty string. */
    predicate HasTrack()
    {
      url.Some? && url.value != ""
    }

    /** A handle, when there is one, plays this player's track, looped, at the fixed volume. */
    ghost predicate Valid()
      reads this, audio
    {
      && (audio != null ==> HasTrack() && audio.src == url.value && audio.loop && audio.volume == TrackVolume)
      && (!mounted ==> audio == null)
    }

    /** Whether music is audible right now. */
    predicate Playing()
      reads this, audio
    {
      audio != null && !audio.paused
    }

    constructor (url: Option<string>)
      ensures Valid() && this.url == url && audio == null && lastEnabled == None && mounted
    {
      this.url := url;
      audio := null;
      lastEnabled := None;
      mounted := true;
    }

    /**
     * A render with the current `bgmEnabled`. React reruns the effect only
     * when the flag differs from the last run; the effect does nothing
     * without a track, creates the handle once, then plays or pauses it.
     */
    method Render(enabled: bool, playAllowed: bool)
      requires Valid() && mounted
      modifies this, audio
      ensures Valid() && mounted && lastEnabled == Some(enabled)
      ensures old(lastEnabled) == Some(enabled) || !HasTrack() ==>
        audio == old(audio) && (audio != null ==> audio.paused == old(audio.paused))
      ensures old(audio) != null ==> audio == old(audio)
      ensures old(audio) == null && old(lastEnabled) != Some(enabled) && HasTrack() ==>
        fresh(audio) && audio != null
      ensures old(lastEnabled) != Some(enabled) && HasTrack() && !enabled ==> !Playing()
      ensures old(lastEnabled) != Some(enabled) && HasTrack() && enabled && playAllowed ==> Playing()
      ensures enabled && !playAllowed ==> Playing() == old(Playing())
    {
      if lastEnabled == Some(enabled) {
        return;
      }
      lastEnabled := Some(enabled);
      if !HasTrack() {
        return;
      }
      if audio == null {
        var a := new AudioHandle(url.value);
        a.loop := true;
        a.volume := TrackVolume;
        audio := a;
      }
      if enabled {
        audio.Play(playAllowed);
      } else {
        audio.Pause();
      }
    }

    /** Unmount cleanup: pause the handle and drop it. */
    method Unmount()
      requires Valid()
      modifies this, audio
      ensures Valid() && audio == null && !mounted
      ensures old(audio) != null ==> old(audio).paused
      ensures !Playing()
    {
      if audio != null {
        audio.Pause();
        audio := null;
      }
      mounted := false;
    }
  }

  /** The component as the site mounts it, with its own track address. */
  method MountPlayer() returns (p: Player)
    ensures fresh(p) && p.Valid() && p.mounted
    ensures p.url == TrackUrl && p.HasTrack()
    ensures p.audio == null && p.lastEnabled == None
  {
    p := new Player(TrackUrl);
  }
}
