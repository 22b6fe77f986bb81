/** The browser's `<video>` element as far as the pages use it: a position, the paused flag, the
    muted flag and the volume. Playback itself and the `play`/`pause` events it fires are steps the
    pages take separately. */
module Media {

  class VideoElement {
    var currentTime: real
    var paused: bool
    var muted: bool
    var volume: real

    /** A freshly loaded source: at the start, paused, unmuted, full volume. */
    constructor ()
      ensures currentTime == 0.0 && paused && !muted && volume == 1.0
    {
      currentTime, paused, muted, volume := 0.0, true, false, 1.0;
    }

    /** Changing `src` reloads the element: back to the start, paused. */
    method Load()
      modifies this
      ensures currentTime == 0.0 && paused
      ensures muted == old(muted) && volume == old(volume)
    {
      currentTime, paused := 0.0, true;
    }

    /** Assigning `currentTime`. */
    method Seek(t: real)
      modifies this
      ensures currentTime == t
      ensures paused == old(paused) && muted == old(muted) && volume == old(volume)
    {
      currentTime := t;
    }

    /** `play()`: the returned promise resolves when `accepted` (the browser allows playback) and
        the element is then playing; a rejection leaves it as it was. */
    method Play(accepted: bool) returns (resolved: bool)
      modifies this
      ensures resolved == accepted
      ensures paused == (old(paused) && !accepted)
      ensures currentTime == old(currentTime) && muted == old(muted) && volume == old(volume)
    {
      if accepted {
        paused := false;
      }
      resolved := accepted;
    }

    /** `pause()`. */
    method Pause()
      modifies this
      ensures paused
      ensures currentTime == old(currentTime) && muted == old(muted) && volume == old(volume)
    {
      paused := true;
    }

    /** Assigning `muted`. */
    method SetMuted(m: bool)
      modifies this
      ensures muted == m
      ensures currentTime == old(currentTime) && paused == old(paused) && volume == old(volume)
    {
      muted := m;
    }

    /** Assigning `volume`. */
    method SetVolume(v: real)
      modifies this
      ensures volume == v
      ensures currentTime == old(currentTime) && paused == old(paused) && muted == old(muted)
    {
      volume := v;
    }
  }
}
