/**
 * The `SDL_Event` union of the com.mrcrayfish.controllable_sdl binding and
 * its `read()` method, which reads the leading `type` field and selects the
 * union member that the rest of the record is read as.
 */
module ControllableSdlEvent {
  import opened Wrappers
  import opened Wire
  import opened SdlEventType

  /** The case labels of `read()`'s switch that select layout `l`. */
  function Codes(l: Layout): set<int> {
    match l
    case Quit => {SDL_QUIT}
    case Common =>
      {SDL_LOCALECHANGED, SDL_RENDER_TARGETS_RESET, SDL_RENDER_DEVICE_RESET,
       SDL_CLIPBOARDUPDATE, SDL_KEYMAPCHANGED}
    case Display => {SDL_DISPLAYEVENT}
    case Window => {SDL_WINDOWEVENT}
    case SysWM => {SDL_SYSWMEVENT}
    case Keyboard => {SDL_KEYDOWN, SDL_KEYUP}
    case TextEditing => {SDL_TEXTEDITING}
    case TextInput => {SDL_TEXTINPUT}
    case TextEditingExt => {SDL_TEXTEDITING_EXT}
    case MouseMotion => {SDL_MOUSEMOTION}
    case MouseButton => {SDL_MOUSEBUTTONDOWN, SDL_MOUSEBUTTONUP}
    case MouseWheel => {SDL_MOUSEWHEEL}
    case JoyAxis => {SDL_JOYAXISMOTION}
    case JoyBall => {SDL_JOYBALLMOTION}
    case JoyHat => {SDL_JOYHATMOTION}
    case JoyButton => {SDL_JOYBUTTONDOWN, SDL_JOYBUTTONUP}
    case JoyDevice => {SDL_JOYDEVICEADDED, SDL_JOYDEVICEREMOVED}
    case JoyBattery => {SDL_JOYBATTERYUPDATED}
    case ControllerAxis => {SDL_CONTROLLERAXISMOTION}
    case ControllerButton => {SDL_CONTROLLERBUTTONDOWN, SDL_CONTROLLERBUTTONUP}
    case ControllerDevice =>
      {SDL_CONTROLLERDEVICEADDED, SDL_CONTROLLERDEVICEREMOVED, SDL_CONTROLLERDEVICEREMAPPED}
    case ControllerTouchpad =>
      {SDL_CONTROLLERTOUCHPADDOWN, SDL_CONTROLLERTOUCHPADMOTION, SDL_CONTROLLERTOUCHPADUP}
    case ControllerSensor => {SDL_CONTROLLERSENSORUPDATE}
    case TouchFinger => {SDL_FINGERDOWN, SDL_FINGERUP, SDL_FINGERMOTION}
    case DollarGesture => {SDL_DOLLARGESTURE, SDL_DOLLARRECORD}
    case MultiGesture => {SDL_MULTIGESTURE}
    case Drop => {SDL_DROPFILE, SDL_DROPTEXT, SDL_DROPBEGIN, SDL_DROPCOMPLETE}
    case AudioDevice => {SDL_AUDIODEVICEADDED, SDL_AUDIODEVICEREMOVED}
    case Sensor => {SDL_SENSORUPDATE}
    case User => {}
  }

  /** Every case label of the switch: the union of the table's rows. */
  const ListedCodes: set<int> :=
    Codes(Quit) + Codes(Common) + Codes(Display) + Codes(Window) + Codes(SysWM)
    + Codes(Keyboard) + Codes(TextEditing) + Codes(TextInput) + Codes(TextEditingExt)
    + Codes(MouseMotion) + Codes(MouseButton) + Codes(MouseWheel) + Codes(JoyAxis)
    + Codes(JoyBall) + Codes(JoyHat) + Codes(JoyButton) + Codes(JoyDevice) + Codes(JoyBattery)
    + Codes(ControllerAxis) + Codes(ControllerButton) + Codes(ControllerDevice)
    + Codes(ControllerTouchpad) + Codes(ControllerSensor) + Codes(TouchFinger)
    + Codes(DollarGesture) + Codes(MultiGesture) + Codes(Drop) + Codes(AudioDevice)
    + Codes(Sensor)

  /** ListedCodes holds the labels of every case. */
  lemma ListedCodesCoverCases(l: Layout)
    ensures Codes(l) <= ListedCodes
  {
  }

  /**
   * The switch of `read()`: the union member selected for event type `t`.
   * A listed code selects the member its case names; the user range selects
   * User and every other value Common, so no `int` is rejected.
   */
  function Dispatch(t: int): (r: Layout)
    ensures InUserRange(t) ==> r == User
    ensures r == User ==> InUserRange(t)
  {
    if t == SDL_QUIT then Quit
    else if t == SDL_LOCALECHANGED || t == SDL_RENDER_TARGETS_RESET
      || t == SDL_RENDER_DEVICE_RESET || t == SDL_CLIPBOARDUPDATE || t == SDL_KEYMAPCHANGED then Common
    else if t == SDL_DISPLAYEVENT then Display
    else if t == SDL_WINDOWEVENT then Window
    else if t == SDL_SYSWMEVENT then SysWM
    else if t == SDL_KEYDOWN || t == SDL_KEYUP then Keyboard
    else if t == SDL_TEXTEDITING then TextEditing
    else if t == SDL_TEXTINPUT then TextInput
    else if t == SDL_TEXTEDITING_EXT then TextEditingExt
    else if t == SDL_MOUSEMOTION then MouseMotion
    else if t == SDL_MOUSEBUTTONDOWN || t == SDL_MOUSEBUTTONUP then MouseButton
    else if t == SDL_MOUSEWHEEL then MouseWheel
    else if t == SDL_JOYAXISMOTION then JoyAxis
    else if t == SDL_JOYBALLMOTION then JoyBall
    else if t == SDL_JOYHATMOTION then JoyHat
    else if t == SDL_JOYBUTTONDOWN || t == SDL_JOYBUTTONUP then JoyButton
    else if t == SDL_JOYDEVICEADDED || t == SDL_JOYDEVICEREMOVED then JoyDevice
    else if t == SDL_JOYBATTERYUPDATED then JoyBattery
    else if t == SDL_CONTROLLERAXISMOTION then ControllerAxis
    else if t == SDL_CONTROLLERBUTTONDOWN || t == SDL_CONTROLLERBUTTONUP then ControllerButton
    else if t == SDL_CONTROLLERDEVICEADDED || t == SDL_CONTROLLERDEVICEREMOVED
      || t == SDL_CONTROLLERDEVICEREMAPPED then ControllerDevice
    else if t == SDL_CONTROLLERTOUCHPADDOWN || t == SDL_CONTROLLERTOUCHPADMOTION
      || t == SDL_CONTROLLERTOUCHPADUP then ControllerTouchpad
    else if t == SDL_CONTROLLERSENSORUPDATE then ControllerSensor
    else if t == SDL_FINGERDOWN || t == SDL_FINGERUP || t == SDL_FINGERMOTION then TouchFinger
    else if t == SDL_DOLLARGESTURE || t == SDL_DOLLARRECORD then DollarGesture
    else if t == SDL_MULTIGESTURE then MultiGesture
    else if t == SDL_DROPFILE || t == SDL_DROPTEXT || t == SDL_DROPBEGIN || t == SDL_DROPCOMPLETE then Drop
    else if t == SDL_AUDIODEVICEADDED || t == SDL_AUDIODEVICEREMOVED then AudioDevice
    else if t == SDL_SENSORUPDATE then Sensor
    else if InUserRange(t) then User
    else Common
  }

  /** A code listed under a case selects that case's member. */
  lemma ListedCodeSelects(t: int, l: Layout)
    requires t in Codes(l)
    ensures Dispatch(t) == l
  {
  }

  /** Every code either is a label of the case it selects or takes the default branch. */
  lemma CaseOrFallback(t: int)
    ensures t in Codes(Dispatch(t)) || Dispatch(t) == Fallback(t)
  {
  }

  /** A code no case lists selects its fallback. */
  lemma UnlistedCodeFallsBack(t: int)
    requires t !in ListedCodes
    ensures Dispatch(t) == Fallback(t)
  {
    CaseOrFallback(t);
    ListedCodesCoverCases(Dispatch(t));
  }

  /** A listed code sits in the table row of the member it selects. */
  lemma ListedCodeInTable(t: int)
    requires t in ListedCodes
    ensures t in Codes(Dispatch(t))
  {
    var l :| t in Codes(l);
    ListedCodeSelects(t, l);
  }

  /**
   * The switch and the table agree everywhere: `t` selects `l` exactly when
   * `t` is a label of `l`'s case, or no case lists `t` and `l` is its fallback.
   */
  lemma DispatchMatchesTable(t: int, l: Layout)
    ensures Dispatch(t) == l <==> t in Codes(l) || (t !in ListedCodes && l == Fallback(t))
  {
    if t in ListedCodes {
      ListedCodeInTable(t);
      if t in Codes(l) {
        CasesDisjoint(t, l, Dispatch(t));
      }
    } else {
      UnlistedCodeFallsBack(t);
      ListedCodesCoverCases(l);
    }
  }

  /**
   * Codes listed under one case share its member: KEYDOWN and KEYUP select
   * Keyboard, the three finger codes TouchFinger, the four drop codes Drop, ...
   */
  lemma SameCaseSameLayout(a: int, b: int, l: Layout)
    requires a in Codes(l) && b in Codes(l)
    ensures Dispatch(a) == Dispatch(b) == l
  {
    ListedCodeSelects(a, l);
    ListedCodeSelects(b, l);
  }

  /** No code is listed under two different cases. */
  lemma CasesDisjoint(t: int, l1: Layout, l2: Layout)
    requires t in Codes(l1) && t in Codes(l2)
    ensures l1 == l2
  {
    ListedCodeSelects(t, l1);
    ListedCodeSelects(t, l2);
  }

  /** Notifications without a payload of their own select Common; quit and window events their own members. */
  lemma NotificationsSelectCommon()
    ensures Dispatch(SDL_LOCALECHANGED) == Dispatch(SDL_RENDER_TARGETS_RESET) == Common
    ensures Dispatch(SDL_RENDER_DEVICE_RESET) == Dispatch(SDL_CLIPBOARDUPDATE) == Common
    ensures Dispatch(SDL_KEYMAPCHANGED) == Common
    ensures Dispatch(SDL_QUIT) == Quit && Dispatch(SDL_WINDOWEVENT) == Window
  {
  }

  /** Negative codes and codes from SDL_LASTEVENT upwards select Common. */
  lemma OutOfRangeSelectsCommon(t: int)
    requires t < 0 || t >= SDL_LASTEVENT
    ensures Dispatch(t) == Common
  {
  }

  /** The union member selected for a whole native record: a function of its first four bytes only. */
  function SelectedLayout(record: seq<byte>, order: ByteOrder): (l: Layout)
    requires |record| >= TYPE_FIELD_SIZE
  {
    Dispatch(DecodeInt32(record[..TYPE_FIELD_SIZE], order))
  }

  /** Two records that agree on the `type` field select the same member, whatever their payload bytes. */
  lemma PayloadDoesNotSelect(a: seq<byte>, b: seq<byte>, order: ByteOrder)
    requires |a| >= TYPE_FIELD_SIZE && |b| >= TYPE_FIELD_SIZE
    requires a[..TYPE_FIELD_SIZE] == b[..TYPE_FIELD_SIZE]
    ensures SelectedLayout(a, order) == SelectedLayout(b, order)
  {
  }

  /**
   * One `SDL_Event` union over a block of native memory. `typ` is the Java
   * `type` field and `active` the union member JNA reads; None until the
   * first `read()`.
   */
  class Event {
    const memory: array<byte>
    const order: ByteOrder
    var typ: int32
    var active: Option<Layout>

    ghost predicate Valid() {
      memory.Length >= TYPE_FIELD_SIZE
    }

    /** `typ` and `active` are what `read()` derives from the memory as it now is. */
    ghost predicate IsRead()
      reads this, memory
      requires Valid()
    {
      typ == DecodeInt32(memory[..TYPE_FIELD_SIZE], order)
      && active == Some(SelectedLayout(memory[..], order))
    }

    /** `new SDL_Event()` or `new SDL_Event(p)` over native memory `memory`; nothing is read yet. */
    constructor (memory: array<byte>, order: ByteOrder)
      requires memory.Length >= TYPE_FIELD_SIZE
      ensures Valid() && this.memory == memory && this.order == order
      ensures typ == 0 && active == None
    {
      this.memory := memory;
      this.order := order;
      typ := 0;
      active := None;
    }

    /**
     * `read()`: fills `type` from the first four bytes, then selects the union
     * member for it. The memory is not written, and a second call on the same
     * memory changes nothing.
     */
    method Read()
      requires Valid()
      modifies this
      ensures Valid() && IsRead()
      ensures typ == DecodeInt32(old(memory[..TYPE_FIELD_SIZE]), order)
      ensures active == Some(Dispatch(typ))
      ensures memory[..] == old(memory[..])
      ensures old(IsRead()) ==> typ == old(typ) && active == old(active)
    {
      typ := DecodeInt32(memory[..TYPE_FIELD_SIZE], order);
      active := Some(Dispatch(typ));
    }
  }
}
