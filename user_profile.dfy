/** The saved player profile (src/utils/userProfile.ts): a single browser
    storage slot, read and written through an injected store that may fail,
    and the merge that folds a finished game into the profile. */
module UserProfiles {
  import opened Types
  import opened Scoring

  /** The storage key of the one profile slot. */
  const USER_PROFILE_KEY: string := "jigsaw-puzzle-user-profile"

  function Min(a: int, b: int): int { if a <= b then a else b }

  /** The browser storage slot under `USER_PROFILE_KEY`. `readable` and
      `writable` stand for the storage calls succeeding; when one of them
      throws, the source logs the error and carries on. */
  class ProfileStore {
    var stored: Option<UserProfile>
    var readable: bool
    var writable: bool

    constructor(initial: Option<UserProfile>, readable: bool, writable: bool)
      ensures stored == initial && this.readable == readable && this.writable == writable
    {
      stored := initial;
      this.readable := readable;
      this.writable := writable;
    }

    /** `getUserProfile`: the stored profile, or nothing when the slot is empty
        or cannot be read. */
    method GetUserProfile() returns (p: Option<UserProfile>)
      ensures p == (if readable then stored else None)
      ensures !readable ==> p == None
    {
      if readable {
        p := stored;
      } else {
        p := None;
      }
    }

    /** `saveUserProfile`: overwrites the slot; a failing write is swallowed
        and leaves the slot as it was. */
    method SaveUserProfile(profile: UserProfile)
      modifies this
      ensures stored == (if old(writable) then Some(profile) else old(stored))
      ensures readable == old(readable) && writable == old(writable)
    {
      if writable {
        stored := Some(profile);
      }
    }

    /** `clearUserProfile`: empties the slot; a failing removal is swallowed. */
    method ClearUserProfile()
      modifies this
      ensures stored == (if old(writable) then None else old(stored))
      ensures readable == old(readable) && writable == old(writable)
    {
      if writable {
        stored := None;
      }
    }
  }

  /** The profile written after a finished game: the current player's name,
      the better of the old best and this game's totals, one more game played.
      `lastPlayed` is the clock reading `new Date().toISOString()`. */
  function MergeProfile(existing: Option<UserProfile>, playerName: string,
                        levelResults: seq<LevelResult>, lastPlayed: string): (p: UserProfile)
    ensures p.name == playerName && p.lastPlayed == lastPlayed
    ensures existing == None ==>
              p.bestScore == CalculateTotalScore(levelResults) &&
              p.bestTime == CalculateTotalTime(levelResults) && p.gamesPlayed == 1
    ensures existing != None ==>
              p.bestScore >= existing.value.bestScore && p.bestTime <= existing.value.bestTime &&
              p.gamesPlayed == existing.value.gamesPlayed + 1
    ensures p.bestScore >= CalculateTotalScore(levelResults)
    ensures p.bestTime <= CalculateTotalTime(levelResults)
    ensures p.bestScore == CalculateTotalScore(levelResults) ||
            (existing != None && p.bestScore == existing.value.bestScore)
    ensures p.bestTime == CalculateTotalTime(levelResults) ||
            (existing != None && p.bestTime == existing.value.bestTime)
  {
    var totalScore := CalculateTotalScore(levelResults);
    var totalTime := CalculateTotalTime(levelResults);
    UserProfile(
      playerName,
      if existing.Some? then Max(existing.value.bestScore, totalScore) else totalScore,
      if existing.Some? then Min(existing.value.bestTime, totalTime) else totalTime,
      if existing.Some? then existing.value.gamesPlayed + 1 else 1,
      lastPlayed)
  }

  /** `updateUserProfile`: reads the slot, merges the finished game into it,
      writes the result back and returns it. */
  method UpdateUserProfile(store: ProfileStore, playerName: string,
                           levelResults: seq<LevelResult>, lastPlayed: string)
    returns (p: UserProfile)
    modifies store
    ensures p == MergeProfile(if old(store.readable) then old(store.stored) else None,
                              playerName, levelResults, lastPlayed)
    ensures store.stored == (if old(store.writable) then Some(p) else old(store.stored))
    ensures store.readable == old(store.readable) && store.writable == old(store.writable)
  {
    var existing := store.GetUserProfile();
    p := MergeProfile(existing, playerName, levelResults, lastPlayed);
    store.SaveUserProfile(p);
  }

  /** One finished game as the merge sees it. */
  datatype PlayedGame = PlayedGame(playerName: string, levelResults: seq<LevelResult>, lastPlayed: string)

  /** The profile after merging the games in order, starting from `existing`. */
  function MergeAll(existing: Option<UserProfile>, games: seq<PlayedGame>): Option<UserProfile>
    decreases |games|
  {
    if games == [] then existing
    else
      var last := games[|games| - 1];
      Some(MergeProfile(MergeAll(existing, games[..|games| - 1]),
                        last.playerName, last.levelResults, last.lastPlayed))
  }

  /** Starting from an empty slot, the profile after any non-empty sequence of
      games counts them all, is named after the last player, and holds the
      highest total score and the lowest total time of those games. */
  lemma {:induction false} MergeAllBest(games: seq<PlayedGame>)
    requires games != []
    ensures MergeAll(None, games).Some?
    ensures MergeAll(None, games).value.gamesPlayed == |games|
    ensures MergeAll(None, games).value.name == games[|games| - 1].playerName
    ensures forall i :: 0 <= i < |games| ==>
              CalculateTotalScore(games[i].levelResults) <= MergeAll(None, games).value.bestScore
    ensures exists i :: 0 <= i < |games| &&
              CalculateTotalScore(games[i].levelResults) == MergeAll(None, games).value.bestScore
    ensures forall i :: 0 <= i < |games| ==>
              MergeAll(None, games).value.bestTime <= CalculateTotalTime(games[i].levelResults)
    ensures exists i :: 0 <= i < |games| &&
              CalculateTotalTime(games[i].levelResults) == MergeAll(None, games).value.bestTime
    decreases |games|
  {
    var n := |games|;
    var prefix := games[..n - 1];
    var p := MergeAll(None, games).value;
    if n > 1 {
      MergeAllBest(prefix);
      var q := MergeAll(None, prefix).value;
      forall i | 0 <= i < n
        ensures CalculateTotalScore(games[i].levelResults) <= p.bestScore
        ensures p.bestTime <= CalculateTotalTime(games[i].levelResults)
      {
        if i < n - 1 {
          assert games[i] == prefix[i];
        }
      }
      if p.bestScore == q.bestScore {
        var k :| 0 <= k < n - 1 && CalculateTotalScore(prefix[k].levelResults) == q.bestScore;
        assert games[k] == prefix[k];
      }
      if p.bestTime == q.bestTime {
        var k :| 0 <= k < n - 1 && CalculateTotalTime(prefix[k].levelResults) == q.bestTime;
        assert games[k] == prefix[k];
      }
    }
  }
}
