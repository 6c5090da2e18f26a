/**
 * The newer (com.mrcrayfish.controllable_sdl) and the older (org.libsdl)
 * event dispatchers side by side.
 */
module DispatchComparison {
  import opened SdlEventType
  import Newer = ControllableSdlEvent
  import Older = LibsdlEvent

  /** The codes on which the two switches select different members. */
  const DisagreementCodes: set<int> :=
    {SDL_DISPLAYEVENT, SDL_TEXTEDITING_EXT, SDL_JOYDEVICEREMOVED, SDL_JOYBATTERYUPDATED,
     SDL_CONTROLLERTOUCHPADDOWN, SDL_CONTROLLERTOUCHPADMOTION, SDL_CONTROLLERTOUCHPADUP,
     SDL_CONTROLLERSENSORUPDATE, SDL_SENSORUPDATE}

  /** The two dispatchers disagree exactly on `DisagreementCodes`. */
  lemma DisagreeExactlyOnNewerCodes(t: int)
    ensures Newer.Dispatch(t) != Older.Dispatch(t) <==> t in DisagreementCodes
  {
  }

  /** Where they disagree, the older dispatcher selected Common. */
  lemma OlderFallsBackToCommon(t: int)
    requires Newer.Dispatch(t) != Older.Dispatch(t)
    ensures Older.Dispatch(t) == Common
  {
  }
}
