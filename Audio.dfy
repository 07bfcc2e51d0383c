// The audio manager's bookkeeping. raudio is outside the model: whether a file loads (and the
// handle it yields) and whether a sound or stream is still playing are inputs, collected in a
// Device. The audio thread is replaced by explicit steps that drain the command queue, and
// floats are reals.

module Audio {
  import opened Base

  /** Opaque raudio Sound and Music objects, standing for the heap objects the records own. */
  type SoundHandle = nat
  type MusicHandle = nat

  datatype AudioEventType =
    | SoundLoaded | SoundUnloaded | SoundPlayed | SoundStopped | SoundPaused | SoundResumed
    | MusicLoaded | MusicUnloaded | MusicStarted | MusicStopped | MusicFinished | AudioError

  /** AudioEvent(type, name = "", msg = ""). */
  datatype AudioEvent = AudioEvent(etype: AudioEventType, soundName: string := "", message: string := "")

  datatype AudioCommandType =
    | LoadSound | UnloadSound | PlaySound | StopSound | PauseSound | ResumeSound
    | SetSoundVolume | SetSoundPitch | SetSoundPan
    | LoadMusic | UnloadMusic | PlayMusic | StopMusic | PauseMusic | ResumeMusic
    | SetMusicVolume | SetMusicPitch | SetMusicPan
    | SetMasterVolume | StopAllSounds | PauseAllSounds | ResumeAllSounds

  /** AudioCommand(type, name = "", path = ""): value1 = 1, value2 = 1, value3 = 0.5, boolValue = false. */
  datatype AudioCommand = AudioCommand(
    ctype: AudioCommandType,
    soundName: string := "",
    filePath: string := "",
    value1: real := 1.0,
    value2: real := 1.0,
    value3: real := 0.5,
    boolValue: bool := false)

  /** LoadedSound(): no handle, volume 1, pitch 1, pan 0.5, neither playing nor paused. */
  datatype LoadedSound = LoadedSound(
    handle: Option<SoundHandle> := None,
    filePath: string := "",
    volume: real := 1.0,
    pitch: real := 1.0,
    pan: real := 0.5,
    isPlaying: bool := false,
    isPaused: bool := false)

  /** LoadedMusic(): the LoadedSound defaults, and not looping. */
  datatype LoadedMusic = LoadedMusic(
    handle: Option<MusicHandle> := None,
    filePath: string := "",
    volume: real := 1.0,
    pitch: real := 1.0,
    pan: real := 0.5,
    isPlaying: bool := false,
    isPaused: bool := false,
    isLooping: bool := false)

  /** SoundAsset(name, path, vol = 1, p = 1, panning = 0.5, isPlaying = false). */
  datatype SoundAsset = SoundAsset(
    name: string, filePath: string, volume: real := 1.0, pitch: real := 1.0, pan: real := 0.5,
    isPlaying: bool := false)

  /** MusicAsset(name, path, shouldLoop = true, vol = 1, p = 1, panning = 0.5, isPlaying = false). */
  datatype MusicAsset = MusicAsset(
    name: string, filePath: string, loop: bool := true, volume: real := 1.0, pitch: real := 1.0,
    pan: real := 0.5, isPlaying: bool := false)

  /** What raudio answers: the object a file path loads into (None when it is not ready after
      loading), and whether a sound, or a stream after UpdateMusicStream, is still playing. */
  datatype Device = Device(
    soundLoads: string -> Option<SoundHandle>,
    musicLoads: string -> Option<MusicHandle>,
    soundPlaying: SoundHandle -> bool,
    streamPlaying: MusicHandle -> bool)

  // ---------------------------------------------------------------------------------------------
  // Move-only records

  /** The two objects after a move, and the handle the destination released first. */
  datatype Moved<T, H> = Moved(dest: T, source: T, released: Option<H>)

  /** `dest = std::move(src)`. `aliased` says the two are the same object, which is left alone.
      The moved-from file path is left empty, as libstdc++ does. */
  function MoveAssignSound(dest: LoadedSound, src: LoadedSound, aliased: bool): (r: Moved<LoadedSound, SoundHandle>)
    requires aliased ==> dest == src
    ensures aliased ==> r.dest == dest && r.source == src && r.released.None?
    ensures !aliased ==> r.dest == src && r.released == dest.handle
    ensures !aliased ==> r.source.handle.None? && !r.source.isPlaying && !r.source.isPaused
    ensures !aliased ==> r.source.volume == src.volume && r.source.pitch == src.pitch && r.source.pan == src.pan
  {
    if aliased then Moved(dest, src, None)
    else Moved(src, src.(handle := None, filePath := "", isPlaying := false, isPaused := false), dest.handle)
  }

  /** `LoadedSound(std::move(src))`: the new record takes everything; the source loses only its
      handle and its file path, and keeps its flags. */
  function MoveConstructSound(src: LoadedSound): (r: Moved<LoadedSound, SoundHandle>)
    ensures r.dest == src && r.released.None?
    ensures r.source.handle.None? && r.source.isPlaying == src.isPlaying && r.source.isPaused == src.isPaused
  {
    Moved(src, src.(handle := None, filePath := ""), None)
  }

  function MoveAssignMusic(dest: LoadedMusic, src: LoadedMusic, aliased: bool): (r: Moved<LoadedMusic, MusicHandle>)
    requires aliased ==> dest == src
    ensures aliased ==> r.dest == dest && r.source == src && r.released.None?
    ensures !aliased ==> r.dest == src && r.released == dest.handle
    ensures !aliased ==> r.source.handle.None? && !r.source.isPlaying && !r.source.isPaused && !r.source.isLooping
    ensures !aliased ==> r.source.volume == src.volume && r.source.pitch == src.pitch && r.source.pan == src.pan
  {
    if aliased then Moved(dest, src, None)
    else Moved(src, src.(handle := None, filePath := "", isPlaying := false, isPaused := false, isLooping := false),
               dest.handle)
  }

  function MoveConstructMusic(src: LoadedMusic): (r: Moved<LoadedMusic, MusicHandle>)
    ensures r.dest == src && r.released.None?
    ensures r.source.handle.None? && r.source.isPlaying == src.isPlaying && r.source.isPaused == src.isPaused
    ensures r.source.isLooping == src.isLooping
  {
    Moved(src, src.(handle := None, filePath := ""), None)
  }

  /** A move never leaves the handle with both objects. */
  lemma MoveHasOneOwner(dest: LoadedSound, src: LoadedSound)
    requires src.handle.Some?
    ensures var r := MoveAssignSound(dest, src, false); r.dest.handle == src.handle && r.source.handle.None?
    ensures var r := MoveConstructSound(src); r.dest.handle == src.handle && r.source.handle.None?
  {
  }

  // ---------------------------------------------------------------------------------------------
  // Parameter clamps of the public setters

  const MinPitch: real := 0.1

  /** std::clamp(x, 0, 1). */
  function Clamp01(x: real): (r: real)
    ensures 0.0 <= r <= 1.0
    ensures 0.0 <= x <= 1.0 ==> r == x
    ensures x < 0.0 ==> r == 0.0
    ensures x > 1.0 ==> r == 1.0
  {
    if x < 0.0 then 0.0 else if x > 1.0 then 1.0 else x
  }

  /** std::max(pitch, 0.1): no zero or negative pitch. */
  function PitchFloor(x: real): (r: real)
    ensures r >= MinPitch
    ensures x >= MinPitch ==> r == x
    ensures x < MinPitch ==> r == MinPitch
  {
    if x < MinPitch then MinPitch else x
  }

  // ---------------------------------------------------------------------------------------------
  // What the audio thread does with one command, as a function of the state it touches

  /** The resources, the master volume, the event queue and the static last error. */
  datatype AudioState = AudioState(
    sounds: map<string, LoadedSound>,
    music: map<string, LoadedMusic>,
    masterVolume: real,
    events: seq<AudioEvent>,
    lastError: string)

  /** Every record in the maps owns a raudio object. */
  predicate Owned(st: AudioState)
  {
    (forall k | k in st.sounds :: st.sounds[k].handle.Some?) &&
    (forall k | k in st.music :: st.music[k].handle.Some?)
  }

  function SoundLoadError(path: string): string { "Failed to load sound: " + path }
  function MusicLoadError(path: string): string { "Failed to load music: " + path }

  /** ProcessLoadSound, with `loaded` the object raudio produced, if it is ready. */
  function LoadSoundStep(st: AudioState, cmd: AudioCommand, loaded: Option<SoundHandle>): AudioState
  {
    var name := cmd.soundName;
    if name in st.sounds then st
    else if loaded.None? then
      var msg := SoundLoadError(cmd.filePath);
      st.(lastError := msg, events := st.events + [AudioEvent(AudioError, name, msg)])
    else
      var entry := LoadedSound(loaded, cmd.filePath, cmd.value1, cmd.value2, cmd.value3);
      var slot := MoveAssignSound(LoadedSound(), entry, false).dest;
      st.(sounds := st.sounds[name := slot],
          events := st.events + [AudioEvent(SoundLoaded, name, "Sound loaded: " + cmd.filePath)])
  }

  function UnloadSoundStep(st: AudioState, name: string): AudioState
  {
    if name !in st.sounds then st
    else st.(sounds := st.sounds - {name}, events := st.events + [AudioEvent(SoundUnloaded, name)])
  }

  /** The raudio UnloadSound calls ~LoadedSound makes: one, on an object raudio reports ready. */
  function DestructorUnloads(s: LoadedSound, ready: SoundHandle -> bool): (calls: seq<SoundHandle>)
    ensures |calls| <= 1
    ensures calls == [] <==> s.handle.None? || !ready(s.handle.value)
    ensures calls != [] ==> calls == [s.handle.value]
  {
    if s.handle.Some? && ready(s.handle.value) then [s.handle.value] else []
  }

  /** The raudio UnloadSound calls ProcessUnloadSound makes, as written, on the entry it erases:
      its own UnloadSound on a ready object, then the erase runs ~LoadedSound. UnloadSound takes
      the Sound by value, so the object still reports ready and is unloaded a second time. */
  function UnloadCallsAsWritten(s: LoadedSound, ready: SoundHandle -> bool): seq<SoundHandle>
  {
    (if s.handle.Some? && ready(s.handle.value) then [s.handle.value] else []) + DestructorUnloads(s, ready)
  }

  /** As written, unloading a loaded, ready sound releases its object twice. */
  lemma UnloadReleasesTwice(s: LoadedSound, ready: SoundHandle -> bool)
    requires s.handle.Some? && ready(s.handle.value)
    ensures UnloadCallsAsWritten(s, ready) == [s.handle.value, s.handle.value]
  {
  }

  /** The evident intent: the erase alone releases the object, through the destructor. */
  function UnloadCalls(s: LoadedSound, ready: SoundHandle -> bool): (calls: seq<SoundHandle>)
    ensures |calls| <= 1 && (calls != [] ==> s.handle.Some? && calls == [s.handle.value])
    ensures s.handle.Some? && ready(s.handle.value) ==> calls == [s.handle.value]
  {
    DestructorUnloads(s, ready)
  }

  /** The change one per-name sound command makes to a loaded sound that has an object. */
  function SoundCommandEffect(s: LoadedSound, cmd: AudioCommand): LoadedSound
  {
    match cmd.ctype
    case PlaySound => s.(isPlaying := true, isPaused := false)
    case StopSound => s.(isPlaying := false, isPaused := false)
    case PauseSound => s.(isPaused := true)
    case ResumeSound => s.(isPaused := false)
    case SetSoundVolume => s.(volume := cmd.value1)
    case SetSoundPitch => s.(pitch := cmd.value1)
    case SetSoundPan => s.(pan := cmd.value1)
    case _ => s
  }

  /** The event a per-name sound command queues; the setters queue none. */
  function SoundCommandEvent(t: AudioCommandType): Option<AudioEventType>
  {
    match t
    case PlaySound => Some(SoundPlayed)
    case StopSound => Some(SoundStopped)
    case PauseSound => Some(SoundPaused)
    case ResumeSound => Some(SoundResumed)
    case _ => None
  }

  /** ProcessPlaySound .. ProcessSetSoundPan: no-ops for an unknown name or a record without an object. */
  function SoundEntryStep(st: AudioState, cmd: AudioCommand): AudioState
  {
    var name := cmd.soundName;
    if name !in st.sounds || st.sounds[name].handle.None? then st
    else
      var sounds := st.sounds[name := SoundCommandEffect(st.sounds[name], cmd)];
      match SoundCommandEvent(cmd.ctype)
      case Some(t) => st.(sounds := sounds, events := st.events + [AudioEvent(t, name)])
      case None => st.(sounds := sounds)
  }

  function LoadMusicStep(st: AudioState, cmd: AudioCommand, loaded: Option<MusicHandle>): AudioState
  {
    var name := cmd.soundName;
    if name in st.music then st
    else if loaded.None? then
      var msg := MusicLoadError(cmd.filePath);
      st.(lastError := msg, events := st.events + [AudioEvent(AudioError, name, msg)])
    else
      var entry := LoadedMusic(loaded, cmd.filePath, cmd.value1, cmd.value2, cmd.value3, false, false, cmd.boolValue);
      var slot := MoveAssignMusic(LoadedMusic(), entry, false).dest;
      st.(music := st.music[name := slot],
          events := st.events + [AudioEvent(MusicLoaded, name, "Music loaded: " + cmd.filePath)])
  }

  function UnloadMusicStep(st: AudioState, name: string): AudioState
  {
    if name !in st.music then st
    else st.(music := st.music - {name}, events := st.events + [AudioEvent(MusicUnloaded, name)])
  }

  function MusicCommandEffect(m: LoadedMusic, cmd: AudioCommand): LoadedMusic
  {
    match cmd.ctype
    case PlayMusic => m.(isPlaying := true, isPaused := false, isLooping := cmd.boolValue)
    case StopMusic => m.(isPlaying := false, isPaused := false)
    case PauseMusic => m.(isPaused := true)
    case ResumeMusic => m.(isPaused := false)
    case SetMusicVolume => m.(volume := cmd.value1)
    case SetMusicPitch => m.(pitch := cmd.value1)
    case SetMusicPan => m.(pan := cmd.value1)
    case _ => m
  }

  /** Only play and stop announce themselves for music; pause and resume are silent. */
  function MusicCommandEvent(t: AudioCommandType): Option<AudioEventType>
  {
    match t
    case PlayMusic => Some(MusicStarted)
    case StopMusic => Some(MusicStopped)
    case _ => None
  }

  function MusicEntryStep(st: AudioState, cmd: AudioCommand): AudioState
  {
    var name := cmd.soundName;
    if name !in st.music || st.music[name].handle.None? then st
    else
      var music := st.music[name := MusicCommandEffect(st.music[name], cmd)];
      match MusicCommandEvent(cmd.ctype)
      case Some(t) => st.(music := music, events := st.events + [AudioEvent(t, name)])
      case None => st.(music := music)
  }

  /** What StopAllSounds, PauseAllSounds and ResumeAllSounds do to one record. */
  function AllSoundsEffect(s: LoadedSound, t: AudioCommandType): LoadedSound
  {
    match t
    case StopAllSounds => if s.handle.Some? then s.(isPlaying := false, isPaused := false) else s
    case PauseAllSounds => if s.isPlaying && !s.isPaused && s.handle.Some? then s.(isPaused := true) else s
    case ResumeAllSounds => if s.isPaused && s.handle.Some? then s.(isPaused := false) else s
    case _ => s
  }

  function AllSounds(sounds: map<string, LoadedSound>, t: AudioCommandType): map<string, LoadedSound>
  {
    map k | k in sounds :: AllSoundsEffect(sounds[k], t)
  }

  /** ProcessCommand: the dispatch on the command type. A command queues at most one event. */
  function Step(st: AudioState, cmd: AudioCommand, dev: Device): (r: AudioState)
    ensures st.events <= r.events && |r.events| <= |st.events| + 1
  {
    match cmd.ctype
    case LoadSound => LoadSoundStep(st, cmd, dev.soundLoads(cmd.filePath))
    case UnloadSound => UnloadSoundStep(st, cmd.soundName)
    case PlaySound | StopSound | PauseSound | ResumeSound | SetSoundVolume | SetSoundPitch | SetSoundPan =>
      SoundEntryStep(st, cmd)
    case LoadMusic => LoadMusicStep(st, cmd, dev.musicLoads(cmd.filePath))
    case UnloadMusic => UnloadMusicStep(st, cmd.soundName)
    case PlayMusic | StopMusic | PauseMusic | ResumeMusic | SetMusicVolume | SetMusicPitch | SetMusicPan =>
      MusicEntryStep(st, cmd)
    case SetMasterVolume => st.(masterVolume := cmd.value1)
    case StopAllSounds | PauseAllSounds | ResumeAllSounds => st.(sounds := AllSounds(st.sounds, cmd.ctype))
  }

  /** The commands processed front to back. Each queues at most one event, and only ever appends. */
  function Run(st: AudioState, cmds: seq<AudioCommand>, dev: Device): (r: AudioState)
    ensures st.events <= r.events && |r.events| <= |st.events| + |cmds|
    decreases |cmds|
  {
    if cmds == [] then st
    else Step(Run(st, cmds[..|cmds| - 1], dev), cmds[|cmds| - 1], dev)
  }

  // ---------------------------------------------------------------------------------------------
  // Queries

  function IsSoundLoadedIn(sounds: map<string, LoadedSound>, name: string): bool { name in sounds }
  function IsAudioPlayingIn(sounds: map<string, LoadedSound>, name: string): bool
  {
    if name in sounds then sounds[name].isPlaying else false
  }
  function IsAudioPausedIn(sounds: map<string, LoadedSound>, name: string): bool
  {
    if name in sounds then sounds[name].isPaused else false
  }
  function IsMusicLoadedIn(music: map<string, LoadedMusic>, name: string): bool { name in music }
  function IsMusicPlayingIn(music: map<string, LoadedMusic>, name: string): bool
  {
    if name in music then music[name].isPlaying else false
  }
  function IsMusicPausedIn(music: map<string, LoadedMusic>, name: string): bool
  {
    if name in music then music[name].isPaused else false
  }

  // ---------------------------------------------------------------------------------------------
  // Properties of command processing

  /** Loading a name that is already loaded changes nothing, whatever raudio would answer. */
  lemma LoadLoadedIsNoop(st: AudioState, cmd: AudioCommand, dev: Device)
    requires cmd.ctype == LoadSound && cmd.soundName in st.sounds
    ensures Step(st, cmd, dev) == st
  {
  }

  /** A successful load records the command's volume, pitch and pan, stopped, and announces it;
      a failed one records nothing, sets the last error and queues AUDIO_ERROR. */
  lemma LoadSoundOutcome(st: AudioState, cmd: AudioCommand, dev: Device)
    requires cmd.ctype == LoadSound && cmd.soundName !in st.sounds
    ensures var r := Step(st, cmd, dev);
      match dev.soundLoads(cmd.filePath)
      case Some(h) =>
        r.sounds == st.sounds[cmd.soundName := LoadedSound(Some(h), cmd.filePath, cmd.value1, cmd.value2, cmd.value3)] &&
        r.events == st.events + [AudioEvent(SoundLoaded, cmd.soundName, "Sound loaded: " + cmd.filePath)] &&
        IsSoundLoadedIn(r.sounds, cmd.soundName) && !IsAudioPlayingIn(r.sounds, cmd.soundName) &&
        !IsAudioPausedIn(r.sounds, cmd.soundName)
      case None =>
        r.sounds == st.sounds && r.lastError == SoundLoadError(cmd.filePath) &&
        r.events == st.events + [AudioEvent(AudioError, cmd.soundName, SoundLoadError(cmd.filePath))]
  {
  }

  /** Loading and then unloading a new name restores the sounds, leaving two events behind. */
  lemma LoadThenUnload(st: AudioState, name: string, path: string, dev: Device)
    requires name !in st.sounds && dev.soundLoads(path).Some?
    ensures var r := Run(st, [AudioCommand(LoadSound, name, path), AudioCommand(UnloadSound, name)], dev);
      r.sounds == st.sounds && r.music == st.music &&
      r.events == st.events + [AudioEvent(SoundLoaded, name, "Sound loaded: " + path), AudioEvent(SoundUnloaded, name)]
  {
    var load := AudioCommand(LoadSound, name, path);
    var cmds := [load, AudioCommand(UnloadSound, name)];
    assert cmds[..1] == [load];
    assert [load][..0] == [];
    var mid := Step(st, load, dev);
    assert Run(st, cmds[..1], dev) == mid;
    assert mid.sounds - {name} == st.sounds;
  }

  /** Unloading a name that is not loaded changes nothing and queues nothing. */
  lemma UnloadUnknownIsNoop(st: AudioState, cmd: AudioCommand, dev: Device)
    requires (cmd.ctype == UnloadSound && cmd.soundName !in st.sounds) ||
             (cmd.ctype == UnloadMusic && cmd.soundName !in st.music)
    ensures Step(st, cmd, dev) == st
  {
  }

  /** Play, stop, pause and resume on a loaded sound, as the queries then see it. */
  lemma SoundFlags(st: AudioState, cmd: AudioCommand, dev: Device)
    requires Owned(st) && cmd.soundName in st.sounds
    ensures var r := Step(st, cmd, dev); var n := cmd.soundName;
      (cmd.ctype == PlaySound ==> IsAudioPlayingIn(r.sounds, n) && !IsAudioPausedIn(r.sounds, n)) &&
      (cmd.ctype == StopSound ==> !IsAudioPlayingIn(r.sounds, n) && !IsAudioPausedIn(r.sounds, n)) &&
      (cmd.ctype == PauseSound ==>
        IsAudioPausedIn(r.sounds, n) && IsAudioPlayingIn(r.sounds, n) == IsAudioPlayingIn(st.sounds, n)) &&
      (cmd.ctype == ResumeSound ==>
        !IsAudioPausedIn(r.sounds, n) && IsAudioPlayingIn(r.sounds, n) == IsAudioPlayingIn(st.sounds, n))
  {
  }

  /** PlayMusic records the loop flag it was given; pause and resume queue no event. */
  lemma MusicFlags(st: AudioState, cmd: AudioCommand, dev: Device)
    requires Owned(st) && cmd.soundName in st.music
    ensures var r := Step(st, cmd, dev); var n := cmd.soundName;
      (cmd.ctype == PlayMusic ==>
        r.music[n].isPlaying && !r.music[n].isPaused && r.music[n].isLooping == cmd.boolValue &&
        r.events == st.events + [AudioEvent(MusicStarted, n)]) &&
      (cmd.ctype == StopMusic ==> !IsMusicPlayingIn(r.music, n) && !IsMusicPausedIn(r.music, n)) &&
      (cmd.ctype == PauseMusic ==> IsMusicPausedIn(r.music, n) && r.events == st.events) &&
      (cmd.ctype == ResumeMusic ==> !IsMusicPausedIn(r.music, n) && r.events == st.events)
  {
  }

  /** Per-name commands for an unknown name change nothing. */
  lemma UnknownNameIsNoop(st: AudioState, cmd: AudioCommand, dev: Device)
    requires cmd.ctype in {PlaySound, StopSound, PauseSound, ResumeSound, SetSoundVolume, SetSoundPitch, SetSoundPan}
    requires cmd.soundName !in st.sounds
    ensures Step(st, cmd, dev) == st
  {
  }

  /** PauseAllSounds pauses exactly the sounds that play unpaused; ResumeAllSounds unpauses every
      paused one; StopAllSounds stops everything. None of them loads, unloads or queues anything. */
  lemma AllSoundsFlags(st: AudioState, t: AudioCommandType, dev: Device, n: string)
    requires Owned(st) && t in {StopAllSounds, PauseAllSounds, ResumeAllSounds} && n in st.sounds
    ensures var r := Step(st, AudioCommand(t), dev);
      r.sounds.Keys == st.sounds.Keys && r.events == st.events &&
      (t == StopAllSounds ==> !IsAudioPlayingIn(r.sounds, n) && !IsAudioPausedIn(r.sounds, n)) &&
      (t == PauseAllSounds ==>
        IsAudioPlayingIn(r.sounds, n) == IsAudioPlayingIn(st.sounds, n) &&
        (IsAudioPausedIn(r.sounds, n) <==> IsAudioPlayingIn(st.sounds, n) || IsAudioPausedIn(st.sounds, n))) &&
      (t == ResumeAllSounds ==>
        IsAudioPlayingIn(r.sounds, n) == IsAudioPlayingIn(st.sounds, n) && !IsAudioPausedIn(r.sounds, n))
  {
  }

  lemma StepKeepsOwned(st: AudioState, cmd: AudioCommand, dev: Device)
    requires Owned(st)
    ensures Owned(Step(st, cmd, dev))
  {
    match cmd.ctype
    case LoadSound => LoadSoundKeepsOwned(st, cmd, dev.soundLoads(cmd.filePath));
    case LoadMusic => LoadMusicKeepsOwned(st, cmd, dev.musicLoads(cmd.filePath));
    case StopAllSounds | PauseAllSounds | ResumeAllSounds => AllSoundsKeepsOwned(st, cmd.ctype);
    case _ =>
  }

  lemma LoadSoundKeepsOwned(st: AudioState, cmd: AudioCommand, loaded: Option<SoundHandle>)
    requires Owned(st)
    ensures Owned(LoadSoundStep(st, cmd, loaded))
  {
  }

  lemma LoadMusicKeepsOwned(st: AudioState, cmd: AudioCommand, loaded: Option<MusicHandle>)
    requires Owned(st)
    ensures Owned(LoadMusicStep(st, cmd, loaded))
  {
  }

  lemma AllSoundsKeepsOwned(st: AudioState, t: AudioCommandType)
    requires Owned(st)
    ensures Owned(st.(sounds := AllSounds(st.sounds, t)))
  {
    var sounds := AllSounds(st.sounds, t);
    forall k | k in sounds
      ensures sounds[k].handle.Some?
    {
      assert sounds[k] == AllSoundsEffect(st.sounds[k], t);
    }
  }

  /** One command naming another sound, other than the *All ones, leaves a sound's record alone. */
  lemma StepLeavesOtherSounds(st: AudioState, cmd: AudioCommand, dev: Device, n: string)
    requires cmd.soundName != n && cmd.ctype !in {StopAllSounds, PauseAllSounds, ResumeAllSounds}
    ensures var r := Step(st, cmd, dev);
      (n in r.sounds <==> n in st.sounds) && (n in st.sounds ==> r.sounds[n] == st.sounds[n])
  {
    match cmd.ctype
    case LoadSound =>
      assert Step(st, cmd, dev) == LoadSoundStep(st, cmd, dev.soundLoads(cmd.filePath));
    case UnloadSound =>
      assert Step(st, cmd, dev) == UnloadSoundStep(st, cmd.soundName);
    case PlaySound | StopSound | PauseSound | ResumeSound | SetSoundVolume | SetSoundPitch | SetSoundPan =>
      assert Step(st, cmd, dev) == SoundEntryStep(st, cmd);
    case LoadMusic | UnloadMusic | PlayMusic | StopMusic | PauseMusic | ResumeMusic | SetMusicVolume
      | SetMusicPitch | SetMusicPan | SetMasterVolume =>
  }

  /** Every record the audio thread holds owns a raudio object, whatever commands arrive. */
  lemma {:induction false} RunKeepsOwned(st: AudioState, cmds: seq<AudioCommand>, dev: Device)
    requires Owned(st)
    ensures Owned(Run(st, cmds, dev))
    decreases |cmds|
  {
    if cmds != [] {
      RunKeepsOwned(st, cmds[..|cmds| - 1], dev);
      StepKeepsOwned(Run(st, cmds[..|cmds| - 1], dev), cmds[|cmds| - 1], dev);
    }
  }

  /** Processing two batches one after the other is processing their concatenation: the thread's
      rounds preserve queue order. */
  lemma {:induction false} RunAppend(st: AudioState, a: seq<AudioCommand>, b: seq<AudioCommand>, dev: Device)
    ensures Run(st, a + b, dev) == Run(Run(st, a, dev), b, dev)
    decreases |b|
  {
    if b == [] {
      assert a + b == a;
    } else {
      var b' := b[..|b| - 1];
      assert (a + b)[..|a + b| - 1] == a + b';
      assert (a + b)[|a + b| - 1] == b[|b| - 1];
      RunAppend(st, a, b', dev);
    }
  }

  /** Commands naming other sounds, and no *All command, leave a sound's record as it was. */
  lemma {:induction false} RunLeavesOtherSounds(st: AudioState, cmds: seq<AudioCommand>, dev: Device, n: string)
    requires forall i | 0 <= i < |cmds| ::
      cmds[i].soundName != n && cmds[i].ctype !in {StopAllSounds, PauseAllSounds, ResumeAllSounds}
    ensures var r := Run(st, cmds, dev);
      (n in r.sounds <==> n in st.sounds) && (n in st.sounds ==> r.sounds[n] == st.sounds[n])
    decreases |cmds|
  {
    if cmds != [] {
      RunLeavesOtherSounds(st, cmds[..|cmds| - 1], dev, n);
      StepLeavesOtherSounds(Run(st, cmds[..|cmds| - 1], dev), cmds[|cmds| - 1], dev, n);
    }
  }

  // ---------------------------------------------------------------------------------------------
  // Work the audio thread does besides commands

  /** A non-looping stream that raudio no longer plays has finished. */
  predicate Finishes(m: LoadedMusic, dev: Device)
  {
    m.isPlaying && m.handle.Some? && !dev.streamPlaying(m.handle.value) && !m.isLooping
  }

  function StreamsUpdated(music: map<string, LoadedMusic>, dev: Device): map<string, LoadedMusic>
  {
    map k | k in music :: if Finishes(music[k], dev) then music[k].(isPlaying := false) else music[k]
  }

  /** A sound marked playing that raudio no longer plays has finished. */
  predicate SoundEnded(s: LoadedSound, dev: Device)
  {
    s.isPlaying && s.handle.Some? && !dev.soundPlaying(s.handle.value)
  }

  function SoundsCleaned(sounds: map<string, LoadedSound>, dev: Device): map<string, LoadedSound>
  {
    map k | k in sounds :: if SoundEnded(sounds[k], dev) then sounds[k].(isPlaying := false, isPaused := false) else sounds[k]
  }

  /** `added` holds one event of type `t` for each name in `names`, in some order. */
  ghost predicate EventsFor(added: seq<AudioEvent>, t: AudioEventType, names: set<string>)
  {
    NoDup(added) &&
    (forall i | 0 <= i < |added| :: added[i] == AudioEvent(t, added[i].soundName)) &&
    (forall n :: AudioEvent(t, n) in added <==> n in names)
  }

  /** `added` holds one command of type `t` for each name in `names`, in some order. */
  ghost predicate CommandsFor(added: seq<AudioCommand>, t: AudioCommandType, names: set<string>)
  {
    NoDup(added) &&
    (forall i | 0 <= i < |added| :: added[i] == AudioCommand(t, added[i].soundName)) &&
    (forall n :: AudioCommand(t, n) in added <==> n in names)
  }

  /** The commands LoadSoundBatch queues: the asset's values, unclamped. */
  function SoundBatch(assets: seq<SoundAsset>): (r: seq<AudioCommand>)
    ensures |r| == |assets|
    ensures forall i | 0 <= i < |assets| ::
      r[i] == AudioCommand(LoadSound, assets[i].name, assets[i].filePath, assets[i].volume, assets[i].pitch, assets[i].pan)
  {
    if assets == [] then []
    else
      var a := assets[|assets| - 1];
      SoundBatch(assets[..|assets| - 1]) + [AudioCommand(LoadSound, a.name, a.filePath, a.volume, a.pitch, a.pan)]
  }

  function MusicBatch(assets: seq<MusicAsset>): (r: seq<AudioCommand>)
    ensures |r| == |assets|
    ensures forall i | 0 <= i < |assets| ::
      r[i] == AudioCommand(LoadMusic, assets[i].name, assets[i].filePath, assets[i].volume, assets[i].pitch,
                           assets[i].pan, assets[i].loop)
  {
    if assets == [] then []
    else
      var a := assets[|assets| - 1];
      MusicBatch(assets[..|assets| - 1]) + [AudioCommand(LoadMusic, a.name, a.filePath, a.volume, a.pitch, a.pan, a.loop)]
  }

  const ErrNotInitialized: string := "AudioManager not initialized"
  const ErrDevice: string := "Failed to initialize audio device"

  class AudioManager {
    var initialized: bool
    var masterVolume: real
    /** Whether the audio thread's loop is running. */
    var threadRunning: bool
    var hasCallback: bool
    var sounds: map<string, LoadedSound>
    var music: map<string, LoadedMusic>
    var commandQueue: seq<AudioCommand>
    var eventQueue: seq<AudioEvent>
    /** The static last-error string. */
    var lastError: string

    /** The part of the manager the audio thread's command handlers read and write. */
    function State(): AudioState
      reads this
    {
      AudioState(sounds, music, masterVolume, eventQueue, lastError)
    }

    /** The constructor does not touch the static last-error string; its current
        value is the parameter. */
    constructor (lastErrorNow: string)
      ensures !initialized && masterVolume == 1.0 && !threadRunning && !hasCallback
      ensures sounds == map[] && music == map[] && commandQueue == [] && eventQueue == [] && lastError == lastErrorNow
      ensures Owned(State())
    {
      initialized, masterVolume, threadRunning, hasCallback := false, 1.0, false, false;
      sounds, music := map[], map[];
      commandQueue, eventQueue := [], [];
      lastError := lastErrorNow;
    }

    /** Initialize; `deviceReady` is raudio's IsAudioDeviceReady after InitAudioDevice. */
    method Initialize(deviceReady: bool) returns (ok: bool)
      modifies `initialized, `threadRunning, `lastError
      ensures old(initialized) ==> ok && unchanged(this)
      ensures !old(initialized) && !deviceReady ==>
        !ok && lastError == ErrDevice && !initialized && threadRunning == old(threadRunning)
      ensures !old(initialized) && deviceReady ==> ok && initialized && threadRunning && lastError == old(lastError)
    {
      if initialized {
        return true;
      }
      if !deviceReady {
        SetError(ErrDevice);
        return false;
      }
      threadRunning := true;
      initialized := true;
      ok := true;
    }

    /** Shutdown drops the callback, the queued commands and events and every record. Stopping the
        playing records first only touches raudio, since the records are then dropped. */
    method Shutdown()
      modifies `hasCallback, `commandQueue, `eventQueue, `threadRunning, `sounds, `music, `initialized
      ensures !old(initialized) ==> unchanged(this)
      ensures old(initialized) ==>
        !initialized && !hasCallback && !threadRunning && eventQueue == [] && sounds == map[] && music == map[]
      ensures old(initialized) ==> commandQueue == if old(threadRunning) then [] else old(commandQueue)
    {
      if !initialized {
        return;
      }
      hasCallback := false;
      if threadRunning {
        commandQueue := [];
        eventQueue := [];
        threadRunning := false;
      }
      eventQueue := [];
      sounds := map[];
      music := map[];
      initialized := false;
    }

    function IsInitialized(): (b: bool)
      reads this
      ensures b == initialized
    {
      initialized
    }

    method SetEventCallback(present: bool)
      modifies `hasCallback
      ensures hasCallback == present
    {
      hasCallback := present;
    }

    method SetError(e: string)
      modifies `lastError
      ensures lastError == e
    {
      lastError := e;
    }

    method QueueCommand(cmd: AudioCommand)
      modifies `commandQueue
      ensures commandQueue == old(commandQueue) + [cmd]
    {
      commandQueue := commandQueue + [cmd];
    }

    method QueueEvent(e: AudioEvent)
      modifies `eventQueue
      ensures eventQueue == old(eventQueue) + [e]
    {
      eventQueue := eventQueue + [e];
    }

    // ---- command handlers (audio thread) -------------------------------------------------------

    method ProcessLoadSound(cmd: AudioCommand, loaded: Option<SoundHandle>)
      modifies `sounds, `eventQueue, `lastError
      ensures State() == LoadSoundStep(old(State()), cmd, loaded)
    {
      var name := cmd.soundName;
      if name in sounds {
        return;
      }
      if loaded.None? {
        SetError(SoundLoadError(cmd.filePath));
        QueueEvent(AudioEvent(AudioError, name, SoundLoadError(cmd.filePath)));
        return;
      }
      var entry := LoadedSound(loaded, cmd.filePath, cmd.value1, cmd.value2, cmd.value3);
      var slot := MoveAssignSound(LoadedSound(), entry, false).dest;
      sounds := sounds[name := slot];
      QueueEvent(AudioEvent(SoundLoaded, name, "Sound loaded: " + cmd.filePath));
    }

    method ProcessUnloadSound(cmd: AudioCommand)
      modifies `sounds, `eventQueue
      ensures State() == UnloadSoundStep(old(State()), cmd.soundName)
    {
      if cmd.soundName !in sounds {
        return;
      }
      sounds := sounds - {cmd.soundName};
      QueueEvent(AudioEvent(SoundUnloaded, cmd.soundName));
    }

    /** ProcessPlaySound, ProcessStopSound, ProcessPauseSound, ProcessResumeSound and the three
        sound setters, which share one shape. */
    method ProcessSoundEntry(cmd: AudioCommand)
      modifies `sounds, `eventQueue
      ensures State() == SoundEntryStep(old(State()), cmd)
    {
      var name := cmd.soundName;
      if name !in sounds || sounds[name].handle.None? {
        return;
      }
      sounds := sounds[name := SoundCommandEffect(sounds[name], cmd)];
      var ev := SoundCommandEvent(cmd.ctype);
      if ev.Some? {
        QueueEvent(AudioEvent(ev.value, name));
      }
    }

    method ProcessLoadMusic(cmd: AudioCommand, loaded: Option<MusicHandle>)
      modifies `music, `eventQueue, `lastError
      ensures State() == LoadMusicStep(old(State()), cmd, loaded)
    {
      var name := cmd.soundName;
      if name in music {
        return;
      }
      if loaded.None? {
        SetError(MusicLoadError(cmd.filePath));
        QueueEvent(AudioEvent(AudioError, name, MusicLoadError(cmd.filePath)));
        return;
      }
      var entry := LoadedMusic(loaded, cmd.filePath, cmd.value1, cmd.value2, cmd.value3, false, false, cmd.boolValue);
      var slot := MoveAssignMusic(LoadedMusic(), entry, false).dest;
      music := music[name := slot];
      QueueEvent(AudioEvent(MusicLoaded, name, "Music loaded: " + cmd.filePath));
    }

    method ProcessUnloadMusic(cmd: AudioCommand)
      modifies `music, `eventQueue
      ensures State() == UnloadMusicStep(old(State()), cmd.soundName)
    {
      if cmd.soundName !in music {
        return;
      }
      music := music - {cmd.soundName};
      QueueEvent(AudioEvent(MusicUnloaded, cmd.soundName));
    }

    /** ProcessPlayMusic .. ProcessSetMusicPan. */
    method ProcessMusicEntry(cmd: AudioCommand)
      modifies `music, `eventQueue
      ensures State() == MusicEntryStep(old(State()), cmd)
    {
      var name := cmd.soundName;
      if name !in music || music[name].handle.None? {
        return;
      }
      music := music[name := MusicCommandEffect(music[name], cmd)];
      var ev := MusicCommandEvent(cmd.ctype);
      if ev.Some? {
        QueueEvent(AudioEvent(ev.value, name));
      }
    }

    /** ProcessStopAllSounds, ProcessPauseAllSounds and ProcessResumeAllSounds: each record is
        visited once, in the map's order, which does not matter. */
    method ProcessAllSounds(t: AudioCommandType)
      modifies `sounds
      ensures sounds == AllSounds(old(sounds), t)
    {
      ghost var s0 := sounds;
      var remaining := sounds.Keys;
      ghost var done: set<string> := {};
      assert sounds == AllSoundsPartly(s0, t, done);
      while remaining != {}
        invariant remaining + done == s0.Keys && remaining !! done
        invariant sounds == AllSoundsPartly(s0, t, done)
        decreases remaining
      {
        var k :| k in remaining;
        VisitSound(t, k, s0, done);
        remaining := remaining - {k};
        done := done + {k};
      }
      AllSoundsPartlyAll(s0, t, done);
    }

    /** One iteration of ProcessAllSounds. */
    method VisitSound(t: AudioCommandType, k: string, ghost s0: map<string, LoadedSound>, ghost done: set<string>)
      requires k in s0 && k !in done && sounds == AllSoundsPartly(s0, t, done)
      modifies `sounds
      ensures sounds == AllSoundsPartly(s0, t, done + {k})
    {
      AllSoundsPartlyStep(s0, t, done, k);
      sounds := sounds[k := AllSoundsEffect(sounds[k], t)];
    }

    method ProcessCommand(cmd: AudioCommand, dev: Device)
      modifies `sounds, `music, `masterVolume, `eventQueue, `lastError
      ensures State() == Step(old(State()), cmd, dev)
    {
      match cmd.ctype
      case LoadSound => ProcessLoadSound(cmd, dev.soundLoads(cmd.filePath));
      case UnloadSound => ProcessUnloadSound(cmd);
      case PlaySound | StopSound | PauseSound | ResumeSound | SetSoundVolume | SetSoundPitch | SetSoundPan =>
        ProcessSoundEntry(cmd);
      case LoadMusic => ProcessLoadMusic(cmd, dev.musicLoads(cmd.filePath));
      case UnloadMusic => ProcessUnloadMusic(cmd);
      case PlayMusic | StopMusic | PauseMusic | ResumeMusic | SetMusicVolume | SetMusicPitch | SetMusicPan =>
        ProcessMusicEntry(cmd);
      case SetMasterVolume => masterVolume := cmd.value1;
      case StopAllSounds | PauseAllSounds | ResumeAllSounds => ProcessAllSounds(cmd.ctype);
    }

    /** The command loop of one audio-thread round: front to back. */
    method ProcessCommands(cmds: seq<AudioCommand>, dev: Device)
      modifies `sounds, `music, `masterVolume, `eventQueue, `lastError
      ensures State() == Run(old(State()), cmds, dev)
    {
      for i := 0 to |cmds|
        invariant State() == Run(old(State()), cmds[..i], dev)
      {
        assert cmds[..i + 1][..i] == cmds[..i];
        ProcessCommand(cmds[i], dev);
      }
      assert cmds[..|cmds|] == cmds;
    }

    /** UpdateMusicStreams: a finished non-looping stream stops and queues MUSIC_FINISHED. */
    method UpdateMusicStreams(dev: Device)
      modifies `music, `eventQueue
      ensures music == StreamsUpdated(old(music), dev)
      ensures old(eventQueue) <= eventQueue
      ensures EventsFor(eventQueue[|old(eventQueue)|..], MusicFinished,
                        set k | k in old(music) && Finishes(old(music)[k], dev))
    {
      ghost var m0, q0 := music, eventQueue;
      var remaining := music.Keys;
      ghost var done: set<string> := {};
      while remaining != {}
        invariant remaining + done == m0.Keys && remaining !! done
        invariant music.Keys == m0.Keys
        invariant forall k | k in done :: music[k] == StreamsUpdated(m0, dev)[k]
        invariant forall k | k in remaining :: music[k] == m0[k]
        invariant q0 <= eventQueue
        invariant EventsFor(eventQueue[|q0|..], MusicFinished, set k | k in done && Finishes(m0[k], dev))
        decreases remaining
      {
        var k :| k in remaining;
        StreamStep(k, dev, m0, q0, done);
        remaining := remaining - {k};
        done := done + {k};
      }
      assert music == StreamsUpdated(m0, dev);
    }

    /** One iteration of UpdateMusicStreams. */
    method StreamStep(k: string, dev: Device, ghost m0: map<string, LoadedMusic>, ghost q0: seq<AudioEvent>,
                      ghost done: set<string>)
      requires k in m0 && done <= m0.Keys
      requires k in music && k !in done && music[k] == m0[k]
      requires q0 <= eventQueue
      requires EventsFor(eventQueue[|q0|..], MusicFinished, set x | x in done && Finishes(m0[x], dev))
      modifies `music, `eventQueue
      ensures music == old(music)[k := StreamsUpdated(m0, dev)[k]]
      ensures q0 <= eventQueue
      ensures EventsFor(eventQueue[|q0|..], MusicFinished, set x | x in done + {k} && Finishes(m0[x], dev))
    {
      var m := music[k];
      if m.isPlaying && m.handle.Some? {
        if !dev.streamPlaying(m.handle.value) && !m.isLooping {
          assert StreamsUpdated(m0, dev)[k] == m.(isPlaying := false);
          music := music[k := m.(isPlaying := false)];
          ghost var before := eventQueue[|q0|..];
          QueueEvent(AudioEvent(MusicFinished, k));
          assert eventQueue[|q0|..] == before + [AudioEvent(MusicFinished, k)];
          return;
        }
      }
      music := music[k := m];
    }

    /** CleanupFinishedSounds: a sound raudio no longer plays is marked stopped and queues SOUND_STOPPED. */
    method CleanupFinishedSounds(dev: Device)
      modifies `sounds, `eventQueue
      ensures sounds == SoundsCleaned(old(sounds), dev)
      ensures old(eventQueue) <= eventQueue
      ensures EventsFor(eventQueue[|old(eventQueue)|..], SoundStopped,
                        set k | k in old(sounds) && SoundEnded(old(sounds)[k], dev))
    {
      ghost var s0, q0 := sounds, eventQueue;
      var remaining := sounds.Keys;
      ghost var done: set<string> := {};
      while remaining != {}
        invariant remaining + done == s0.Keys && remaining !! done
        invariant sounds.Keys == s0.Keys
        invariant forall k | k in done :: sounds[k] == SoundsCleaned(s0, dev)[k]
        invariant forall k | k in remaining :: sounds[k] == s0[k]
        invariant q0 <= eventQueue
        invariant EventsFor(eventQueue[|q0|..], SoundStopped, set k | k in done && SoundEnded(s0[k], dev))
        decreases remaining
      {
        var k :| k in remaining;
        CleanupStep(k, dev, s0, q0, done);
        remaining := remaining - {k};
        done := done + {k};
      }
      assert sounds == SoundsCleaned(s0, dev);
    }

    method CleanupStep(k: string, dev: Device, ghost s0: map<string, LoadedSound>, ghost q0: seq<AudioEvent>,
                       ghost done: set<string>)
      requires k in s0 && done <= s0.Keys
      requires k in sounds && k !in done && sounds[k] == s0[k]
      requires q0 <= eventQueue
      requires EventsFor(eventQueue[|q0|..], SoundStopped, set x | x in done && SoundEnded(s0[x], dev))
      modifies `sounds, `eventQueue
      ensures sounds == old(sounds)[k := SoundsCleaned(s0, dev)[k]]
      ensures q0 <= eventQueue
      ensures EventsFor(eventQueue[|q0|..], SoundStopped, set x | x in done + {k} && SoundEnded(s0[x], dev))
    {
      var s := sounds[k];
      if s.isPlaying && s.handle.Some? && !dev.soundPlaying(s.handle.value) {
        assert SoundsCleaned(s0, dev)[k] == s.(isPlaying := false, isPaused := false);
        sounds := sounds[k := s.(isPlaying := false, isPaused := false)];
        ghost var before := eventQueue[|q0|..];
        QueueEvent(AudioEvent(SoundStopped, k));
        assert eventQueue[|q0|..] == before + [AudioEvent(SoundStopped, k)];
        return;
      }
      sounds := sounds[k := s];
    }

    /** One round of the audio thread: take the whole command queue, process it in order, update
        the streams and, once a second (`cleanupDue`), mark finished sounds. The thread only runs
        rounds while its loop flag is set. */
    method ThreadRound(dev: Device, cleanupDue: bool)
      returns (ghost afterCommands: AudioState, ghost streamEvents: seq<AudioEvent>, ghost cleanupEvents: seq<AudioEvent>)
      requires threadRunning
      modifies `commandQueue, `sounds, `music, `masterVolume, `eventQueue, `lastError
      ensures commandQueue == []
      ensures afterCommands == Run(old(State()), old(commandQueue), dev)
      ensures masterVolume == afterCommands.masterVolume && lastError == afterCommands.lastError
      ensures music == StreamsUpdated(afterCommands.music, dev)
      ensures sounds == if cleanupDue then SoundsCleaned(afterCommands.sounds, dev) else afterCommands.sounds
      ensures eventQueue == afterCommands.events + streamEvents + cleanupEvents
      ensures EventsFor(streamEvents, MusicFinished,
                        set k | k in afterCommands.music && Finishes(afterCommands.music[k], dev))
      ensures cleanupDue ==> EventsFor(cleanupEvents, SoundStopped,
                                       set k | k in afterCommands.sounds && SoundEnded(afterCommands.sounds[k], dev))
      ensures !cleanupDue ==> cleanupEvents == []
    {
      var cmds := commandQueue;
      commandQueue := [];
      ProcessCommands(cmds, dev);
      afterCommands := State();
      UpdateMusicStreams(dev);
      streamEvents := eventQueue[|afterCommands.events|..];
      ghost var q1 := eventQueue;
      cleanupEvents := [];
      if cleanupDue {
        CleanupFinishedSounds(dev);
        cleanupEvents := eventQueue[|q1|..];
      }
      assert eventQueue == q1 + cleanupEvents;
      assert q1 == afterCommands.events + streamEvents;
    }

    // ---- public API (caller's thread) ----------------------------------------------------------

    /** Queues `cmd` when the manager is initialized; otherwise drops it. */
    method Post(cmd: AudioCommand)
      modifies `commandQueue
      ensures commandQueue == old(commandQueue) + if initialized then [cmd] else []
    {
      if !initialized {
        return;
      }
      QueueCommand(cmd);
    }

    method LoadSound(name: string, path: string) returns (ok: bool)
      modifies `commandQueue, `lastError
      ensures ok == initialized
      ensures ok ==> commandQueue == old(commandQueue) + [AudioCommand(AudioCommandType.LoadSound, name, path)] && lastError == old(lastError)
      ensures !ok ==> commandQueue == old(commandQueue) && lastError == ErrNotInitialized
    {
      if !initialized {
        SetError(ErrNotInitialized);
        return false;
      }
      QueueCommand(AudioCommand(AudioCommandType.LoadSound, name, path));
      ok := true;
    }

    method UnloadSound(name: string)
      modifies `commandQueue
      ensures commandQueue == old(commandQueue) + if initialized then [AudioCommand(AudioCommandType.UnloadSound, name)] else []
    {
      Post(AudioCommand(AudioCommandType.UnloadSound, name));
    }

    method PlayAudio(name: string)
      modifies `commandQueue
      ensures commandQueue == old(commandQueue) + if initialized then [AudioCommand(PlaySound, name)] else []
    {
      Post(AudioCommand(PlaySound, name));
    }

    method StopAudio(name: string)
      modifies `commandQueue
      ensures commandQueue == old(commandQueue) + if initialized then [AudioCommand(StopSound, name)] else []
    {
      Post(AudioCommand(StopSound, name));
    }

    method PauseAudio(name: string)
      modifies `commandQueue
      ensures commandQueue == old(commandQueue) + if initialized then [AudioCommand(PauseSound, name)] else []
    {
      Post(AudioCommand(PauseSound, name));
    }

    method ResumeAudio(name: string)
      modifies `commandQueue
      ensures commandQueue == old(commandQueue) + if initialized then [AudioCommand(ResumeSound, name)] else []
    {
      Post(AudioCommand(ResumeSound, name));
    }

    method SetSoundVolume(name: string, volume: real)
      modifies `commandQueue
      ensures commandQueue == old(commandQueue) +
        if initialized then [AudioCommand(AudioCommandType.SetSoundVolume, name, value1 := Clamp01(volume))] else []
    {
      Post(AudioCommand(AudioCommandType.SetSoundVolume, name, value1 := Clamp01(volume)));
    }

    method SetSoundPitch(name: string, pitch: real)
      modifies `commandQueue
      ensures commandQueue == old(commandQueue) +
        if initialized then [AudioCommand(AudioCommandType.SetSoundPitch, name, value1 := PitchFloor(pitch))] else []
    {
      Post(AudioCommand(AudioCommandType.SetSoundPitch, name, value1 := PitchFloor(pitch)));
    }

    method SetSoundPan(name: string, pan: real)
      modifies `commandQueue
      ensures commandQueue == old(commandQueue) +
        if initialized then [AudioCommand(AudioCommandType.SetSoundPan, name, value1 := Clamp01(pan))] else []
    {
      Post(AudioCommand(AudioCommandType.SetSoundPan, name, value1 := Clamp01(pan)));
    }

    method LoadMusic(name: string, path: string) returns (ok: bool)
      modifies `commandQueue, `lastError
      ensures ok == initialized
      ensures ok ==> commandQueue == old(commandQueue) + [AudioCommand(AudioCommandType.LoadMusic, name, path)] && lastError == old(lastError)
      ensures !ok ==> commandQueue == old(commandQueue) && lastError == ErrNotInitialized
    {
      if !initialized {
        SetError(ErrNotInitialized);
        return false;
      }
      QueueCommand(AudioCommand(AudioCommandType.LoadMusic, name, path));
      ok := true;
    }

    method UnloadMusic(name: string)
      modifies `commandQueue
      ensures commandQueue == old(commandQueue) + if initialized then [AudioCommand(AudioCommandType.UnloadMusic, name)] else []
    {
      Post(AudioCommand(AudioCommandType.UnloadMusic, name));
    }

    method PlayMusic(name: string, loop: bool := true)
      modifies `commandQueue
      ensures commandQueue == old(commandQueue) +
        if initialized then [AudioCommand(AudioCommandType.PlayMusic, name, boolValue := loop)] else []
    {
      Post(AudioCommand(AudioCommandType.PlayMusic, name, boolValue := loop));
    }

    method StopMusic(name: string)
      modifies `commandQueue
      ensures commandQueue == old(commandQueue) + if initialized then [AudioCommand(AudioCommandType.StopMusic, name)] else []
    {
      Post(AudioCommand(AudioCommandType.StopMusic, name));
    }

    method PauseMusic(name: string)
      modifies `commandQueue
      ensures commandQueue == old(commandQueue) + if initialized then [AudioCommand(AudioCommandType.PauseMusic, name)] else []
    {
      Post(AudioCommand(AudioCommandType.PauseMusic, name));
    }

    method ResumeMusic(name: string)
      modifies `commandQueue
      ensures commandQueue == old(commandQueue) + if initialized then [AudioCommand(AudioCommandType.ResumeMusic, name)] else []
    {
      Post(AudioCommand(AudioCommandType.ResumeMusic, name));
    }

    method SetMusicVolume(name: string, volume: real)
      modifies `commandQueue
      ensures commandQueue == old(commandQueue) +
        if initialized then [AudioCommand(AudioCommandType.SetMusicVolume, name, value1 := Clamp01(volume))] else []
    {
      Post(AudioCommand(AudioCommandType.SetMusicVolume, name, value1 := Clamp01(volume)));
    }

    method SetMusicPitch(name: string, pitch: real)
      modifies `commandQueue
      ensures commandQueue == old(commandQueue) +
        if initialized then [AudioCommand(AudioCommandType.SetMusicPitch, name, value1 := PitchFloor(pitch))] else []
    {
      Post(AudioCommand(AudioCommandType.SetMusicPitch, name, value1 := PitchFloor(pitch)));
    }

    method SetMusicPan(name: string, pan: real)
      modifies `commandQueue
      ensures commandQueue == old(commandQueue) +
        if initialized then [AudioCommand(AudioCommandType.SetMusicPan, name, value1 := Clamp01(pan))] else []
    {
      Post(AudioCommand(AudioCommandType.SetMusicPan, name, value1 := Clamp01(pan)));
    }

    /** SetMasterVolume is queued even before initialization. */
    method SetMasterVolume(volume: real)
      modifies `commandQueue
      ensures commandQueue == old(commandQueue) + [AudioCommand(AudioCommandType.SetMasterVolume, value1 := Clamp01(volume))]
    {
      QueueCommand(AudioCommand(AudioCommandType.SetMasterVolume, value1 := Clamp01(volume)));
    }

    function GetMasterVolume(): (v: real)
      reads this
      ensures v == masterVolume
    {
      masterVolume
    }

    method StopAllSounds()
      modifies `commandQueue
      ensures commandQueue == old(commandQueue) + if initialized then [AudioCommand(AudioCommandType.StopAllSounds)] else []
    {
      Post(AudioCommand(AudioCommandType.StopAllSounds));
    }

    method PauseAllSounds()
      modifies `commandQueue
      ensures commandQueue == old(commandQueue) + if initialized then [AudioCommand(AudioCommandType.PauseAllSounds)] else []
    {
      Post(AudioCommand(AudioCommandType.PauseAllSounds));
    }

    method ResumeAllSounds()
      modifies `commandQueue
      ensures commandQueue == old(commandQueue) + if initialized then [AudioCommand(AudioCommandType.ResumeAllSounds)] else []
    {
      Post(AudioCommand(AudioCommandType.ResumeAllSounds));
    }

    /** StopAllMusic, PauseAllMusic and ResumeAllMusic queue one command per selected track, in the
        map's order, without checking initialization. `t` is StopMusic (every track), PauseMusic
        (tracks playing unpaused) or ResumeMusic (paused tracks). */
    method QueueForMusic(t: AudioCommandType)
      modifies `commandQueue
      ensures old(commandQueue) <= commandQueue
      ensures CommandsFor(commandQueue[|old(commandQueue)|..], t, set k | k in music && SelectsMusic(t, music[k]))
    {
      ghost var q0 := commandQueue;
      var remaining := music.Keys;
      ghost var done: set<string> := {};
      while remaining != {}
        invariant remaining + done == music.Keys && remaining !! done
        invariant q0 <= commandQueue
        invariant CommandsFor(commandQueue[|q0|..], t, set k | k in done && SelectsMusic(t, music[k]))
        decreases remaining
      {
        var k :| k in remaining;
        QueueStep(t, k, q0, done);
        remaining := remaining - {k};
        done := done + {k};
      }
      assert done == music.Keys;
    }

    /** One iteration of QueueForMusic. */
    method QueueStep(t: AudioCommandType, k: string, ghost q0: seq<AudioCommand>, ghost done: set<string>)
      requires k in music && k !in done && done <= music.Keys
      requires q0 <= commandQueue
      requires CommandsFor(commandQueue[|q0|..], t, set x | x in done && SelectsMusic(t, music[x]))
      modifies `commandQueue
      ensures q0 <= commandQueue
      ensures CommandsFor(commandQueue[|q0|..], t, set x | x in done + {k} && SelectsMusic(t, music[x]))
    {
      if SelectsMusic(t, music[k]) {
        ghost var before := commandQueue[|q0|..];
        QueueCommand(AudioCommand(t, k));
        assert commandQueue[|q0|..] == before + [AudioCommand(t, k)];
      } else {
        assert (set x | x in done + {k} && SelectsMusic(t, music[x])) == (set x | x in done && SelectsMusic(t, music[x]));
      }
    }

    method StopAllMusic()
      modifies `commandQueue
      ensures old(commandQueue) <= commandQueue
      ensures CommandsFor(commandQueue[|old(commandQueue)|..], AudioCommandType.StopMusic, music.Keys)
    {
      QueueForMusic(AudioCommandType.StopMusic);
      assert (set k | k in music && SelectsMusic(AudioCommandType.StopMusic, music[k])) == music.Keys;
    }

    method PauseAllMusic()
      modifies `commandQueue
      ensures old(commandQueue) <= commandQueue
      ensures CommandsFor(commandQueue[|old(commandQueue)|..], AudioCommandType.PauseMusic,
                          set k | k in music && music[k].isPlaying && !music[k].isPaused)
    {
      QueueForMusic(AudioCommandType.PauseMusic);
    }

    method ResumeAllMusic()
      modifies `commandQueue
      ensures old(commandQueue) <= commandQueue
      ensures CommandsFor(commandQueue[|old(commandQueue)|..], AudioCommandType.ResumeMusic, set k | k in music && music[k].isPaused)
    {
      QueueForMusic(AudioCommandType.ResumeMusic);
    }

    /** LoadSoundBatch queues one load per asset, in order, without checking initialization. */
    method LoadSoundBatch(assets: seq<SoundAsset>)
      modifies `commandQueue
      ensures commandQueue == old(commandQueue) + SoundBatch(assets)
    {
      for i := 0 to |assets|
        invariant commandQueue == old(commandQueue) + SoundBatch(assets[..i])
      {
        assert assets[..i + 1][..i] == assets[..i];
        var a := assets[i];
        QueueCommand(AudioCommand(AudioCommandType.LoadSound, a.name, a.filePath, a.volume, a.pitch, a.pan));
      }
      assert assets[..|assets|] == assets;
    }

    method LoadMusicBatch(assets: seq<MusicAsset>)
      modifies `commandQueue
      ensures commandQueue == old(commandQueue) + MusicBatch(assets)
    {
      for i := 0 to |assets|
        invariant commandQueue == old(commandQueue) + MusicBatch(assets[..i])
      {
        assert assets[..i + 1][..i] == assets[..i];
        var a := assets[i];
        QueueCommand(AudioCommand(AudioCommandType.LoadMusic, a.name, a.filePath, a.volume, a.pitch, a.pan, a.loop));
      }
      assert assets[..|assets|] == assets;
    }

    /** Update hands every queued event to the callback, front to back, and empties the queue. */
    method Update() returns (delivered: seq<AudioEvent>)
      modifies `eventQueue
      ensures !initialized ==> eventQueue == old(eventQueue) && delivered == []
      ensures initialized ==> eventQueue == [] && delivered == if hasCallback then old(eventQueue) else []
    {
      delivered := [];
      if !initialized {
        return;
      }
      var toProcess := eventQueue;
      eventQueue := [];
      var i := 0;
      while i < |toProcess|
        invariant 0 <= i <= |toProcess|
        invariant delivered == if hasCallback then toProcess[..i] else []
      {
        if hasCallback {
          delivered := delivered + [toProcess[i]];
        }
        i := i + 1;
      }
      assert toProcess[..|toProcess|] == toProcess;
    }

    function IsSoundLoaded(name: string): (b: bool)
      reads this
      ensures b <==> name in sounds
    {
      IsSoundLoadedIn(sounds, name)
    }

    function IsAudioPlaying(name: string): (b: bool)
      reads this
      ensures b <==> name in sounds && sounds[name].isPlaying
    {
      IsAudioPlayingIn(sounds, name)
    }

    function IsAudioPaused(name: string): (b: bool)
      reads this
      ensures b <==> name in sounds && sounds[name].isPaused
    {
      IsAudioPausedIn(sounds, name)
    }

    function IsMusicLoaded(name: string): (b: bool)
      reads this
      ensures b <==> name in music
    {
      IsMusicLoadedIn(music, name)
    }

    function IsMusicPlaying(name: string): (b: bool)
      reads this
      ensures b <==> name in music && music[name].isPlaying
    {
      IsMusicPlayingIn(music, name)
    }

    function IsMusicPaused(name: string): (b: bool)
      reads this
      ensures b <==> name in music && music[name].isPaused
    {
      IsMusicPausedIn(music, name)
    }

    function GetLoadedSoundCount(): (n: nat)
      reads this
      ensures n == |sounds.Keys|
    {
      |sounds|
    }

    function GetLoadedMusicCount(): (n: nat)
      reads this
      ensures n == |music.Keys|
    {
      |music|
    }

    /** The loaded names, each once, in the map's order. */
    method GetLoadedSoundNames() returns (names: seq<string>)
      ensures NoDup(names) && |names| == |sounds|
      ensures forall n :: n in names <==> n in sounds
    {
      names := KeysOf(sounds.Keys);
    }

    method GetLoadedMusicNames() returns (names: seq<string>)
      ensures NoDup(names) && |names| == |music|
      ensures forall n :: n in names <==> n in music
    {
      names := KeysOf(music.Keys);
    }

    function GetLastError(): (e: string)
      reads this
      ensures e == lastError
    {
      lastError
    }
  }

  /** The sounds after an *All command has visited the names in `done`. */
  ghost function AllSoundsPartly(s0: map<string, LoadedSound>, t: AudioCommandType, done: set<string>): map<string, LoadedSound>
  {
    map k | k in s0 :: if k in done then AllSoundsEffect(s0[k], t) else s0[k]
  }

  /** Visiting one more name changes that record alone. */
  lemma AllSoundsPartlyStep(s0: map<string, LoadedSound>, t: AudioCommandType, done: set<string>, k: string)
    requires k in s0 && k !in done
    ensures AllSoundsPartly(s0, t, done)[k := AllSoundsEffect(s0[k], t)] == AllSoundsPartly(s0, t, done + {k})
  {
  }

  lemma AllSoundsPartlyAll(s0: map<string, LoadedSound>, t: AudioCommandType, done: set<string>)
    requires done == s0.Keys
    ensures AllSoundsPartly(s0, t, done) == AllSounds(s0, t)
  {
  }

  /** Which tracks StopAllMusic, PauseAllMusic and ResumeAllMusic select. */
  predicate SelectsMusic(t: AudioCommandType, m: LoadedMusic)
  {
    match t
    case StopMusic => true
    case PauseMusic => m.isPlaying && !m.isPaused
    case ResumeMusic => m.isPaused
    case _ => false
  }

  /** Lists the keys of a map, each once, in the map's (arbitrary) order. */
  method KeysOf(keys: set<string>) returns (names: seq<string>)
    ensures NoDup(names) && |names| == |keys|
    ensures forall n :: n in names <==> n in keys
  {
    names := [];
    var remaining := keys;
    while remaining != {}
      invariant remaining <= keys && NoDup(names)
      invariant forall n :: n in names <==> n in keys && n !in remaining
      invariant |names| + |remaining| == |keys|
      decreases remaining
    {
      var k :| k in remaining;
      names := names + [k];
      remaining := remaining - {k};
    }
  }
}
