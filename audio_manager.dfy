/**
 * The audio manager: a cache of sound effects by key, a mute flag that
 * pauses and resumes everything, two volumes persisted in the registry,
 * and at most one background music track at a time.
 */
module Audio {
  import opened JsValues

  /** A Phaser sound: its key, volume, loop flag, play state and how often `play` started it. */
  datatype Sound = Sound(key: string, volume: real, loop: bool, playing: bool, paused: bool, starts: nat)

  /** The part of a sound config the manager looks at; absent fields take the manager's defaults. */
  datatype SoundConfig = SoundConfig(volume: Option<real>, loop: Option<bool>)

  const NoConfig := SoundConfig(None, None)

  /** `o ?? d` for an optional field. */
  function GetOr<T>(o: Option<T>, d: T): (r: T)
    ensures o.Some? ==> r == o.value
    ensures o.None? ==> r == d
  {
    if o.Some? then o.value else d
  }

  /** `scene.sound.add(key, {volume, loop, ...config})`: a new, stopped sound. */
  function NewSound(key: string, config: SoundConfig, volume: real, loop: bool): (s: Sound)
    ensures s.key == key && !s.playing && !s.paused && s.starts == 0
    ensures s.volume == (if config.volume.Some? then config.volume.value else volume)
    ensures s.loop == (if config.loop.Some? then config.loop.value else loop)
  {
    Sound(key, GetOr(config.volume, volume), GetOr(config.loop, loop), false, false, 0)
  }

  function Started(s: Sound): (r: Sound)
    ensures r.playing && !r.paused && r.starts == s.starts + 1
    ensures r.key == s.key && r.volume == s.volume && r.loop == s.loop
  {
    s.(playing := true, paused := false, starts := s.starts + 1)
  }

  function Stopped(s: Sound): (r: Sound)
    ensures !r.playing && !r.paused
    ensures r.key == s.key && r.volume == s.volume && r.loop == s.loop && r.starts == s.starts
  {
    s.(playing := false, paused := false)
  }

  /** `pause()` acts on a playing sound only. */
  function Paused(s: Sound): (r: Sound)
    ensures s.playing ==> r == s.(playing := false, paused := true)
    ensures !s.playing ==> r == s
  {
    if s.playing then s.(playing := false, paused := true) else s
  }

  /** `resume()` acts on a paused sound only. */
  function Resumed(s: Sound): (r: Sound)
    ensures s.paused ==> r == s.(playing := true, paused := false)
    ensures !s.paused ==> r == s
  {
    if s.paused then s.(playing := true, paused := false) else s
  }

  function WithVolume(s: Sound, volume: real): (r: Sound)
    ensures r.volume == volume && r == s.(volume := volume)
  {
    s.(volume := volume)
  }

  /** `f` applied to every cached sound. */
  function MapSounds(sounds: map<string, Sound>, f: Sound -> Sound): (r: map<string, Sound>)
    ensures r.Keys == sounds.Keys
    ensures forall k :: k in r ==> r[k] == f(sounds[k])
  {
    map k | k in sounds :: f(sounds[k])
  }

  /** A sound that was not paused beforehand comes out of mute and unmute as it went in. */
  lemma PauseThenResume(s: Sound)
    ensures !s.paused ==> Resumed(Paused(s)) == s
    ensures s.playing ==> Resumed(Paused(s)).playing
  {
  }

  /**
   * Muting and then unmuting a cache that holds no paused sound gives the
   * cache back unchanged: every sound that was playing plays again.
   */
  lemma {:induction false} MuteThenUnmuteRestores(sounds: map<string, Sound>)
    requires forall k :: k in sounds ==> !sounds[k].paused
    ensures MapSounds(MapSounds(sounds, Paused), Resumed) == sounds
  {
    var muted := MapSounds(sounds, Paused);
    var back := MapSounds(muted, Resumed);
    forall k | k in sounds
      ensures back[k] == sounds[k]
    {
      PauseThenResume(sounds[k]);
    }
  }

  class AudioManager {
    var sounds: map<string, Sound>
    var soundVolume: real
    var isMuted: bool
    var currentMusic: Option<Sound>
    var musicVolume: real
    /** The registry writes the manager made, in order. */
    var registryWrites: seq<(string, real)>
    /** The music tracks stopped and destroyed, in order. */
    var destroyedMusic: seq<Sound>

    /** The volumes come from the registry, 1 where it holds none. */
    constructor (storedSoundVolume: Option<real>, storedMusicVolume: Option<real>)
      ensures soundVolume == (if storedSoundVolume.Some? then storedSoundVolume.value else 1.0)
      ensures musicVolume == (if storedMusicVolume.Some? then storedMusicVolume.value else 1.0)
      ensures sounds == map[] && !isMuted && currentMusic == None
      ensures registryWrites == [] && destroyedMusic == []
    {
      sounds := map[];
      soundVolume := GetOr(storedSoundVolume, 1.0);
      isMuted := false;
      currentMusic := None;
      musicVolume := GetOr(storedMusicVolume, 1.0);
      registryWrites := [];
      destroyedMusic := [];
    }

    /** forEach over the cache. */
    method ForEachSound(f: Sound -> Sound)
      modifies this
      ensures sounds == MapSounds(old(sounds), f)
      ensures soundVolume == old(soundVolume) && isMuted == old(isMuted) && currentMusic == old(currentMusic)
      ensures musicVolume == old(musicVolume) && registryWrites == old(registryWrites) && destroyedMusic == old(destroyedMusic)
    {
      var pending := sounds.Keys;
      while pending != {}
        invariant pending <= sounds.Keys && sounds.Keys == old(sounds).Keys
        invariant forall k :: k in sounds ==> sounds[k] == if k in pending then old(sounds)[k] else f(old(sounds)[k])
        invariant soundVolume == old(soundVolume) && isMuted == old(isMuted) && currentMusic == old(currentMusic)
        invariant musicVolume == old(musicVolume) && registryWrites == old(registryWrites) && destroyedMusic == old(destroyedMusic)
        decreases pending
      {
        var k :| k in pending;
        sounds := sounds[k := f(sounds[k])];
        pending := pending - {k};
      }
    }

    /** add: caches a new stopped sound, unless one is cached under the key. */
    method Add(key: string, config: SoundConfig)
      modifies this
      ensures key in old(sounds) ==> sounds == old(sounds)
      ensures key !in old(sounds) ==> sounds == old(sounds)[key := NewSound(key, config, soundVolume, false)]
      ensures soundVolume == old(soundVolume) && isMuted == old(isMuted) && currentMusic == old(currentMusic)
      ensures musicVolume == old(musicVolume) && registryWrites == old(registryWrites) && destroyedMusic == old(destroyedMusic)
    {
      if key !in sounds {
        sounds := sounds[key := NewSound(key, config, soundVolume, false)];
      }
    }

    /**
     * play: nothing while muted; otherwise the sound is cached if needed
     * and started unless it is already playing.
     */
    method Play(key: string, config: SoundConfig)
      modifies this
      ensures old(isMuted) ==> sounds == old(sounds)
      ensures !old(isMuted) ==> key in sounds && sounds[key].playing
      ensures !old(isMuted) && key in old(sounds) && old(sounds)[key].playing ==> sounds == old(sounds)
      ensures !old(isMuted) && key in old(sounds) && !old(sounds)[key].playing ==> sounds == old(sounds)[key := Started(old(sounds)[key])]
      ensures !old(isMuted) && key !in old(sounds) ==> sounds == old(sounds)[key := Started(NewSound(key, config, soundVolume, false))]
      ensures soundVolume == old(soundVolume) && isMuted == old(isMuted) && currentMusic == old(currentMusic)
      ensures musicVolume == old(musicVolume) && registryWrites == old(registryWrites) && destroyedMusic == old(destroyedMusic)
    {
      if isMuted {
        return;
      }
      var sound;
      if key in sounds {
        sound := sounds[key];
      } else {
        sound := NewSound(key, config, soundVolume, false);
        sounds := sounds[key := sound];
      }
      if !sound.playing {
        sounds := sounds[key := Started(sound)];
      }
    }

    /** stop: stops the cached sound; an unknown key is ignored. */
    method Stop(key: string)
      modifies this
      ensures sounds == if key in old(sounds) then old(sounds)[key := Stopped(old(sounds)[key])] else old(sounds)
      ensures soundVolume == old(soundVolume) && isMuted == old(isMuted) && currentMusic == old(currentMusic)
      ensures musicVolume == old(musicVolume) && registryWrites == old(registryWrites) && destroyedMusic == old(destroyedMusic)
    {
      if key in sounds {
        sounds := sounds[key := Stopped(sounds[key])];
      }
    }

    method StopAll()
      modifies this
      ensures sounds.Keys == old(sounds).Keys && forall k :: k in sounds ==> !sounds[k].playing && !sounds[k].paused
      ensures sounds == MapSounds(old(sounds), Stopped)
      ensures soundVolume == old(soundVolume) && isMuted == old(isMuted) && currentMusic == old(currentMusic)
      ensures musicVolume == old(musicVolume) && registryWrites == old(registryWrites) && destroyedMusic == old(destroyedMusic)
    {
      ForEachSound(Stopped);
    }

    /** mute: sets the flag and pauses every playing sound and the playing music. */
    method Mute()
      modifies this
      ensures isMuted
      ensures sounds == MapSounds(old(sounds), Paused)
      ensures forall k :: k in sounds ==> !sounds[k].playing
      ensures currentMusic == if old(currentMusic).Some? then Some(Paused(old(currentMusic).value)) else None
      ensures soundVolume == old(soundVolume) && musicVolume == old(musicVolume)
      ensures registryWrites == old(registryWrites) && destroyedMusic == old(destroyedMusic)
    {
      isMuted := true;
      ForEachSound(Paused);
      if currentMusic.Some? && currentMusic.value.playing {
        currentMusic := Some(Paused(currentMusic.value));
      }
    }

    /** unmute: clears the flag and resumes every paused sound and the paused music. */
    method Unmute()
      modifies this
      ensures !isMuted
      ensures sounds == MapSounds(old(sounds), Resumed)
      ensures forall k :: k in sounds ==> !sounds[k].paused
      ensures currentMusic == if old(currentMusic).Some? then Some(Resumed(old(currentMusic).value)) else None
      ensures soundVolume == old(soundVolume) && musicVolume == old(musicVolume)
      ensures registryWrites == old(registryWrites) && destroyedMusic == old(destroyedMusic)
    {
      isMuted := false;
      ForEachSound(Resumed);
      if currentMusic.Some? && currentMusic.value.paused {
        currentMusic := Some(Resumed(currentMusic.value));
      }
    }

    /** The `changedata-soundVolume` listener: a different value is taken and given to every cached sound. */
    method OnSoundVolumeChanged(newValue: real)
      modifies this
      ensures soundVolume == newValue
      ensures sounds == if old(soundVolume) != newValue then MapSounds(old(sounds), s => WithVolume(s, newValue)) else old(sounds)
      ensures isMuted == old(isMuted) && currentMusic == old(currentMusic)
      ensures musicVolume == old(musicVolume) && registryWrites == old(registryWrites) && destroyedMusic == old(destroyedMusic)
    {
      if soundVolume != newValue {
        soundVolume := newValue;
        UpdateAllSoundVolumes();
      }
    }

    /** The `changedata-musicVolume` listener: a different value is taken and given to the current track. */
    method OnMusicVolumeChanged(newValue: real)
      modifies this
      ensures musicVolume == newValue
      ensures currentMusic == if old(musicVolume) != newValue && old(currentMusic).Some?
        then Some(WithVolume(old(currentMusic).value, newValue)) else old(currentMusic)
      ensures sounds == old(sounds) && soundVolume == old(soundVolume) && isMuted == old(isMuted)
      ensures registryWrites == old(registryWrites) && destroyedMusic == old(destroyedMusic)
    {
      if musicVolume != newValue {
        musicVolume := newValue;
        if currentMusic.Some? {
          currentMusic := Some(WithVolume(currentMusic.value, newValue));
        }
      }
    }

    method UpdateAllSoundVolumes()
      modifies this
      ensures sounds == MapSounds(old(sounds), s => WithVolume(s, old(soundVolume)))
      ensures soundVolume == old(soundVolume) && isMuted == old(isMuted) && currentMusic == old(currentMusic)
      ensures musicVolume == old(musicVolume) && registryWrites == old(registryWrites) && destroyedMusic == old(destroyedMusic)
    {
      var v := soundVolume;
      ForEachSound(s => WithVolume(s, v));
    }

    /**
     * setSoundVolume as written: the field is set before the registry write,
     * so the `changedata-soundVolume` listener that the write triggers sees
     * no change and the cached sounds keep their old volume.
     */
    method SetSoundVolumeAsWritten(value: real)
      modifies this
      ensures soundVolume == value && sounds == old(sounds)
      ensures registryWrites == old(registryWrites) + (if old(soundVolume) != value then [("soundVolume", value)] else [])
      ensures isMuted == old(isMuted) && currentMusic == old(currentMusic)
      ensures musicVolume == old(musicVolume) && destroyedMusic == old(destroyedMusic)
    {
      if soundVolume == value {
        return;
      }
      soundVolume := value;
      registryWrites := registryWrites + [("soundVolume", value)];
      OnSoundVolumeChanged(value);
    }

    /**
     * setSoundVolume: an equal value changes nothing; a new one is stored,
     * persisted and given to every cached sound.
     */
    method SetSoundVolume(value: real)
      modifies this
      ensures soundVolume == value
      ensures old(soundVolume) == value ==> sounds == old(sounds) && registryWrites == old(registryWrites)
      ensures old(soundVolume) != value ==>
        && sounds.Keys == old(sounds).Keys
        && (forall k :: k in sounds ==> sounds[k] == old(sounds)[k].(volume := value))
        && registryWrites == old(registryWrites) + [("soundVolume", value)]
      ensures isMuted == old(isMuted) && currentMusic == old(currentMusic)
      ensures musicVolume == old(musicVolume) && destroyedMusic == old(destroyedMusic)
    {
      if soundVolume == value {
        return;
      }
      registryWrites := registryWrites + [("soundVolume", value)];
      OnSoundVolumeChanged(value);
    }

    /** setMusicVolume as written: as with the sound volume, the playing track keeps its old volume. */
    method SetMusicVolumeAsWritten(value: real)
      modifies this
      ensures musicVolume == value && currentMusic == old(currentMusic)
      ensures registryWrites == old(registryWrites) + (if old(musicVolume) != value then [("musicVolume", value)] else [])
      ensures sounds == old(sounds) && soundVolume == old(soundVolume) && isMuted == old(isMuted)
      ensures destroyedMusic == old(destroyedMusic)
    {
      if musicVolume == value {
        return;
      }
      musicVolume := value;
      registryWrites := registryWrites + [("musicVolume", value)];
      OnMusicVolumeChanged(value);
    }

    /** setMusicVolume: a new value is stored, persisted and given to the current track. */
    method SetMusicVolume(value: real)
      modifies this
      ensures musicVolume == value
      ensures old(musicVolume) == value ==> currentMusic == old(currentMusic) && registryWrites == old(registryWrites)
      ensures old(musicVolume) != value ==>
        && currentMusic == (if old(currentMusic).Some? then Some(old(currentMusic).value.(volume := value)) else None)
        && registryWrites == old(registryWrites) + [("musicVolume", value)]
      ensures sounds == old(sounds) && soundVolume == old(soundVolume) && isMuted == old(isMuted)
      ensures destroyedMusic == old(destroyedMusic)
    {
      if musicVolume == value {
        return;
      }
      registryWrites := registryWrites + [("musicVolume", value)];
      OnMusicVolumeChanged(value);
    }

    function GetSoundVolume(): real
      reads this
    {
      soundVolume
    }

    function GetMusicVolume(): real
      reads this
    {
      musicVolume
    }

    /**
     * playMusic: the same key already playing only takes the music volume;
     * anything else stops and destroys the current track and starts a new
     * looping one (left stopped while muted).
     */
    method PlayMusic(key: string, config: SoundConfig)
      modifies this
      ensures old(currentMusic).Some? && old(currentMusic).value.key == key && old(currentMusic).value.playing ==>
        && currentMusic == Some(old(currentMusic).value.(volume := musicVolume))
        && destroyedMusic == old(destroyedMusic)
      ensures !(old(currentMusic).Some? && old(currentMusic).value.key == key && old(currentMusic).value.playing) ==>
        && currentMusic.Some?
        && currentMusic.value == (if isMuted then NewSound(key, config, musicVolume, true) else Started(NewSound(key, config, musicVolume, true)))
        && destroyedMusic == old(destroyedMusic) + (if old(currentMusic).Some? then [Stopped(old(currentMusic).value)] else [])
      ensures sounds == old(sounds) && soundVolume == old(soundVolume) && isMuted == old(isMuted)
      ensures musicVolume == old(musicVolume) && registryWrites == old(registryWrites)
    {
      if currentMusic.Some? && currentMusic.value.key == key && currentMusic.value.playing {
        currentMusic := Some(WithVolume(currentMusic.value, musicVolume));
        return;
      }
      StopMusic();
      var music := NewSound(key, config, musicVolume, true);
      if !isMuted {
        music := Started(music);
      }
      currentMusic := Some(music);
    }

    /** stopMusic: stops and destroys the current track; afterwards there is none. */
    method StopMusic()
      modifies this
      ensures currentMusic == None
      ensures destroyedMusic == old(destroyedMusic) + (if old(currentMusic).Some? then [Stopped(old(currentMusic).value)] else [])
      ensures sounds == old(sounds) && soundVolume == old(soundVolume) && isMuted == old(isMuted)
      ensures musicVolume == old(musicVolume) && registryWrites == old(registryWrites)
    {
      if currentMusic.Some? {
        destroyedMusic := destroyedMusic + [Stopped(currentMusic.value)];
        currentMusic := None;
      }
    }

    /** playBackgroundMusic: playMusic with looping asked for explicitly. */
    method PlayBackgroundMusic(trackKey: string)
      modifies this
      ensures currentMusic.Some? && currentMusic.value.key == trackKey
      ensures !(old(currentMusic).Some? && old(currentMusic).value.key == trackKey && old(currentMusic).value.playing) ==>
        currentMusic.value.loop
      ensures !isMuted ==> currentMusic.value.playing
      ensures sounds == old(sounds) && isMuted == old(isMuted)
    {
      PlayMusic(trackKey, SoundConfig(None, Some(true)));
    }
  }
}
