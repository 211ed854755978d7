/** The game-independent handler: run-lifecycle state, run result and per-game settings. */
module GameHandler {
  import opened Wrappers
  import opened RunData

  /** The states of a handler, with the integer values the enum assigns them. */
  datatype GameHandlerState = Idle | WaitingForStart | Running | Finished | Aborted {

    function Value(): (v: nat)
      ensures v < 5
    {
      match this
      case Idle => 0
      case WaitingForStart => 1
      case Running => 2
      case Finished => 3
      case Aborted => 4
    }
  }

  /** The enum lookup by value: defined exactly on 0..4, and the inverse of Value there. */
  function StateOf(v: int): (r: Option<GameHandlerState>)
    ensures r.Some? <==> 0 <= v < 5
    ensures r.Some? ==> r.value.Value() == v
  {
    match v
    case 0 => Some(Idle)
    case 1 => Some(WaitingForStart)
    case 2 => Some(Running)
    case 3 => Some(Finished)
    case 4 => Some(Aborted)
    case _ => None
  }

  /** The five states carry five distinct values. */
  lemma StateValuesDistinct(s: GameHandlerState, t: GameHandlerState)
    ensures s.Value() == t.Value() <==> s == t
  {
  }

  // ---------------------------------------------------------------------------
  // Game name

  /** "Game" starts at index i of s. */
  predicate GameAt(s: string, i: int) {
    0 <= i && i + 4 <= |s| && s[i] == 'G' && s[i + 1] == 'a' && s[i + 2] == 'm' && s[i + 3] == 'e'
  }

  /** The class name with every occurrence of "Game" removed, scanning left to right. */
  function GameName(className: string): (r: string)
    ensures |r| <= |className|
    decreases |className|
  {
    if GameAt(className, 0) then GameName(className[4..])
    else if className == [] then []
    else [className[0]] + GameName(className[1..])
  }

  /** Dropping the first character shifts every occurrence one place to the left. */
  lemma GameAtTail(s: string, i: nat)
    requires s != []
    ensures GameAt(s[1..], i) <==> GameAt(s, i + 1)
  {
  }

  /** The leftmost occurrence is removed and the scan resumes right after it. */
  lemma {:induction false} GameNameLeftmost(s: string, k: nat)
    requires GameAt(s, k)
    requires forall i :: 0 <= i < k ==> !GameAt(s, i)
    ensures GameName(s) == s[..k] + GameName(s[k + 4..])
    decreases k
  {
    if k > 0 {
      var t := s[1..];
      assert GameName(s) == [s[0]] + GameName(t) by {
        assert !GameAt(s, 0);
      }
      forall i | 0 <= i < k - 1 ensures !GameAt(t, i) {
        GameAtTail(s, i);
      }
      GameAtTail(s, k - 1);
      GameNameLeftmost(t, k - 1);
      assert t[k + 3..] == s[k + 4..];
      assert [s[0]] + t[..k - 1] == s[..k];
    }
  }

  /** A name without any occurrence of "Game" is left as it is. */
  lemma {:induction false} GameNameNoOccurrence(s: string)
    requires forall i :: !GameAt(s, i)
    ensures GameName(s) == s
    decreases |s|
  {
    if s != [] {
      var t := s[1..];
      assert !GameAt(s, 0);
      forall i ensures !GameAt(t, i) {
        if 0 <= i {
          GameAtTail(s, i);
        }
      }
      GameNameNoOccurrence(t);
      assert [s[0]] + t == s;
    }
  }

  /** The DiRT Rally 2.0 handler class is registered under "DirtRally2". */
  lemma GameNameOfDirtRally2()
    ensures GameName("GameDirtRally2") == "DirtRally2"
  {
    var s := "GameDirtRally2";
    var t := "DirtRally2";
    assert GameAt(s, 0) && s[4..] == t;
    assert forall i :: 0 <= i < |t| ==> t[i] != 'G';
    GameNameNoOccurrence(t);
  }

  // ---------------------------------------------------------------------------
  // Settings

  datatype Settings = Settings(udpPort: int, udpBufferSize: int)

  /** The settings common to all games: the game's telemetry port and the datagram buffer size. */
  function DefaultSettings(): (r: Settings)
    ensures r.udpPort == 20777 && r.udpBufferSize == 1024
  {
    Settings(20777, 1024)
  }

  /** The per-game section of the application settings, keyed by game name. */
  type SettingsStore = map<string, Settings>

  /**
   * The settings a handler starts with, and the store afterwards: the stored entry when there
   * is one (store untouched), otherwise the defaults, which are written back under the name.
   */
  function ResolveSettings(store: SettingsStore, gameName: string): (r: (Settings, SettingsStore))
    ensures gameName in r.1 && r.1[gameName] == r.0
    ensures gameName in store ==> r.0 == store[gameName] && r.1 == store
    ensures gameName !in store ==> r.0 == DefaultSettings()
    ensures r.1.Keys == store.Keys + {gameName}
    ensures forall k :: k in store ==> r.1[k] == store[k]
  {
    if gameName in store then (store[gameName], store)
    else (DefaultSettings(), store[gameName := DefaultSettings()])
  }

  /** Constructing a second handler for the same game finds the entry the first one wrote. */
  lemma ResolveSettingsIdempotent(store: SettingsStore, gameName: string)
    ensures ResolveSettings(ResolveSettings(store, gameName).1, gameName)
            == ResolveSettings(store, gameName)
  {
  }

  /** What the fallback does as written: the defaults are fetched without an instance, which fails. */
  datatype SettingsError = MissingSelfArgument

  /**
   * The settings lookup as the constructor writes it: a stored entry is found as intended, but a
   * missing one raises instead of falling back to the defaults.
   */
  function ResolveSettingsAsWritten(store: SettingsStore, gameName: string)
    : (r: Result<(Settings, SettingsStore), SettingsError>)
    ensures gameName in store ==> r == Success(ResolveSettings(store, gameName))
    ensures gameName !in store ==> r == Failure(MissingSelfArgument)
  {
    if gameName in store then Success((store[gameName], store)) else Failure(MissingSelfArgument)
  }

  /** On a settings file without an entry for the game, construction fails as written. */
  lemma FallbackAsWrittenFails()
    ensures ResolveSettingsAsWritten(map[], "DirtRally2").Failure?
    ensures ResolveSettings(map[], "DirtRally2") == (DefaultSettings(), map["DirtRally2" := DefaultSettings()])
  {
  }

  // ---------------------------------------------------------------------------
  // The handler object

  datatype ConstructionError = NotImplementedError

  class GameHandler {
    var state: GameHandlerState
    var runResult: Option<RunData>
    var gameSettings: Settings
    /**
     * The name the settings were looked up under. The Python object does not store it (it is a
     * local of the constructor); it is kept here only so that Create can state it.
     */
    ghost const gameName: string
    /** Every state handed to SetState, in order. */
    ghost var transitions: seq<GameHandlerState>

    constructor (gameName: string, gameSettings: Settings)
      ensures state == Idle && runResult == None
      ensures this.gameName == gameName && this.gameSettings == gameSettings
      ensures transitions == []
    {
      state := Idle;
      runResult := None;
      this.gameName := gameName;
      this.gameSettings := gameSettings;
      transitions := [];
    }

    /** The current state, read without changing anything. */
    function GetState(): (s: GameHandlerState)
      reads this
      ensures s == state
    {
      state
    }

    /** The run is over exactly in the two terminal states. */
    predicate IsRunOver()
      reads this
      ensures IsRunOver() <==> GetState() == Finished || GetState() == Aborted
    {
      state == Finished || state == Aborted
    }

    method SetState(newState: GameHandlerState)
      modifies this`state, this`transitions
      ensures GetState() == newState
      ensures transitions == old(transitions) + [newState]
    {
      state := newState;
      transitions := transitions + [newState];
    }
  }

  /**
   * Constructs the handler for the class named className: the abstract base class itself is
   * refused; otherwise the handler starts Idle without a result, under the class name with
   * "Game" removed, with its settings resolved against the store.
   */
  method Create(className: string, store: SettingsStore)
    returns (res: Result<GameHandler, ConstructionError>, newStore: SettingsStore)
    ensures className == "GameHandler" <==> res.Failure?
    ensures res.Failure? ==> res.error == NotImplementedError && newStore == store
    ensures res.Success? ==>
      var h := res.value;
      fresh(h) && h.GetState() == Idle && h.runResult == None && !h.IsRunOver() &&
      h.transitions == [] && h.gameName == GameName(className) &&
      (h.gameSettings, newStore) == ResolveSettings(store, GameName(className))
  {
    if className == "GameHandler" {
      return Failure(NotImplementedError), store;
    }
    var name := GameName(className);
    var resolved := ResolveSettings(store, name);
    var h := new GameHandler(name, resolved.0);
    res, newStore := Success(h), resolved.1;
  }
}
