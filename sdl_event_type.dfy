/**
 * The event-type codes of SDL2's `SDL_EventType` enumeration (public header
 * `SDL_events.h`), and the payload layouts an `SDL_Event` union can hold.
 */
module SdlEventType {

  const SDL_QUIT: int := 0x100
  const SDL_LOCALECHANGED: int := 0x107
  const SDL_DISPLAYEVENT: int := 0x150
  const SDL_WINDOWEVENT: int := 0x200
  const SDL_SYSWMEVENT: int := 0x201
  const SDL_KEYDOWN: int := 0x300
  const SDL_KEYUP: int := 0x301
  const SDL_TEXTEDITING: int := 0x302
  const SDL_TEXTINPUT: int := 0x303
  const SDL_KEYMAPCHANGED: int := 0x304
  const SDL_TEXTEDITING_EXT: int := 0x305
  const SDL_MOUSEMOTION: int := 0x400
  const SDL_MOUSEBUTTONDOWN: int := 0x401
  const SDL_MOUSEBUTTONUP: int := 0x402
  const SDL_MOUSEWHEEL: int := 0x403
  const SDL_JOYAXISMOTION: int := 0x600
  const SDL_JOYBALLMOTION: int := 0x601
  const SDL_JOYHATMOTION: int := 0x602
  const SDL_JOYBUTTONDOWN: int := 0x603
  const SDL_JOYBUTTONUP: int := 0x604
  const SDL_JOYDEVICEADDED: int := 0x605
  const SDL_JOYDEVICEREMOVED: int := 0x606
  const SDL_JOYBATTERYUPDATED: int := 0x607
  const SDL_CONTROLLERAXISMOTION: int := 0x650
  const SDL_CONTROLLERBUTTONDOWN: int := 0x651
  const SDL_CONTROLLERBUTTONUP: int := 0x652
  const SDL_CONTROLLERDEVICEADDED: int := 0x653
  const SDL_CONTROLLERDEVICEREMOVED: int := 0x654
  const SDL_CONTROLLERDEVICEREMAPPED: int := 0x655
  const SDL_CONTROLLERTOUCHPADDOWN: int := 0x656
  const SDL_CONTROLLERTOUCHPADMOTION: int := 0x657
  const SDL_CONTROLLERTOUCHPADUP: int := 0x658
  const SDL_CONTROLLERSENSORUPDATE: int := 0x659
  const SDL_FINGERDOWN: int := 0x700
  const SDL_FINGERUP: int := 0x701
  const SDL_FINGERMOTION: int := 0x702
  const SDL_DOLLARGESTURE: int := 0x800
  const SDL_DOLLARRECORD: int := 0x801
  const SDL_MULTIGESTURE: int := 0x802
  const SDL_CLIPBOARDUPDATE: int := 0x900
  const SDL_DROPFILE: int := 0x1000
  const SDL_DROPTEXT: int := 0x1001
  const SDL_DROPBEGIN: int := 0x1002
  const SDL_DROPCOMPLETE: int := 0x1003
  const SDL_AUDIODEVICEADDED: int := 0x1100
  const SDL_AUDIODEVICEREMOVED: int := 0x1101
  const SDL_SENSORUPDATE: int := 0x1200
  const SDL_RENDER_TARGETS_RESET: int := 0x2000
  const SDL_RENDER_DEVICE_RESET: int := 0x2001

  /** First code reserved for application-registered events. */
  const SDL_USEREVENT: int := 0x8000
  /** Bound of the enumeration; user events lie in [SDL_USEREVENT, SDL_LASTEVENT). */
  const SDL_LASTEVENT: int := 0xFFFF

  /** A code reserved for user events. */
  predicate InUserRange(t: int) {
    SDL_USEREVENT <= t < SDL_LASTEVENT
  }

  /**
   * The union members of `SDL_Event`: which payload structure the bytes after
   * the `type` field are read as. `Common` is type and timestamp only.
   */
  datatype Layout =
    | Common | Display | Window | SysWM
    | Keyboard | TextEditing | TextInput | TextEditingExt
    | MouseMotion | MouseButton | MouseWheel
    | JoyAxis | JoyBall | JoyHat | JoyButton | JoyDevice | JoyBattery
    | ControllerAxis | ControllerButton | ControllerDevice | ControllerTouchpad | ControllerSensor
    | AudioDevice | TouchFinger | MultiGesture | DollarGesture | Drop | Sensor
    | Quit | User
  {
    /** The union members that exist only in the newer binding's union. */
    predicate NewerOnly() {
      this in {Display, TextEditingExt, JoyBattery, ControllerTouchpad, ControllerSensor, Sensor}
    }
  }

  /** The layout an unlisted code falls back to: User in the user range, Common elsewhere. */
  function Fallback(t: int): (l: Layout)
    ensures l == User <==> InUserRange(t)
    ensures l == Common <==> !InUserRange(t)
  {
    if InUserRange(t) then User else Common
  }
}
