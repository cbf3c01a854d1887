/** The start form (src/components/UserNameInput.tsx): the name field is
    prefilled from the saved profile, and submitting starts the game with the
    trimmed name when it is not blank. */
module UserNameInput {
  import opened Types
  import opened Text
  import opened UserProfiles

  /** `handleSubmit`: the name the game is started with, if any. */
  function HandleSubmit(playerName: string): (r: Option<string>)
    ensures r == None <==> AllWhitespace(playerName)
    ensures r != None ==> r.value != [] && IsTrimmedSlice(r.value, playerName)
  {
    var name := Trim(playerName);
    if name != [] then Some(name) else None
  }

  /** Submitting a name that the form already accepted once starts the game
      with that same name. */
  lemma SubmitIdempotent(playerName: string)
    requires HandleSubmit(playerName) != None
    ensures HandleSubmit(HandleSubmit(playerName).value) == HandleSubmit(playerName)
  {
    TrimIdempotent(playerName);
  }

  /** The mount effect: the field starts empty, or holds the saved profile's
      name when one can be read. */
  method PrefillName(store: ProfileStore) returns (name: string)
    ensures name == (if store.readable && store.stored != None then store.stored.value.name else "")
  {
    var profile := store.GetUserProfile();
    name := "";
    if profile != None {
      name := profile.value.name;
    }
  }

  /** After a game started from the form has been saved to working storage,
      the next visit prefills the field with the same name, and submitting it
      unchanged starts a game under that name again. */
  method NameSurvivesAGame(store: ProfileStore, typed: string, levelResults: seq<LevelResult>, lastPlayed: string)
    returns (prefilled: string)
    requires store.readable && store.writable && HandleSubmit(typed) != None
    modifies store
    ensures prefilled == HandleSubmit(typed).value
    ensures HandleSubmit(prefilled) == HandleSubmit(typed)
  {
    var name := HandleSubmit(typed).value;
    var saved := UpdateUserProfile(store, name, levelResults, lastPlayed);
    prefilled := PrefillName(store);
    SubmitIdempotent(typed);
  }
}
