// The capture screen's flash button: each press steps the flash mode through
// Auto, On and Off; every new mode updates the button's icon and is passed on
// to the camera device (`setFlashMode`, which is not part of this model and is
// recorded as a log of the modes passed on).

module Capture {
  import Optionals

  datatype FlashMode = Off | On | Auto

  /** The camera device, as far as the screen looks at it. */
  datatype Device = Device(hasFlash: bool)

  /** The mode a press of the flash button switches to. */
  function NextFlashMode(mode: FlashMode): (r: FlashMode)
    ensures r != mode
  {
    match mode
    case Auto => On
    case On => Off
    case Off => Auto
  }

  /** Three presses bring back the starting mode, and the two presses before that visit the other two modes. */
  lemma NextFlashModeCycles(mode: FlashMode)
    ensures NextFlashMode(NextFlashMode(NextFlashMode(mode))) == mode
    ensures NextFlashMode(NextFlashMode(mode)) != mode
    ensures NextFlashMode(NextFlashMode(mode)) != NextFlashMode(mode)
  {
  }

  /** The name of the button image shown for a mode. */
  function FlashIcon(mode: FlashMode): (r: string)
    ensures r == "Flash" <==> mode == On
    ensures r == "FlashOff" <==> mode == Off
    ensures r == "FlashAuto" <==> mode == Auto
  {
    match mode
    case On => "Flash"
    case Off => "FlashOff"
    case Auto => "FlashAuto"
  }

  /** Different modes show different icons. */
  lemma FlashIconsDistinct(a: FlashMode, b: FlashMode)
    requires a != b
    ensures FlashIcon(a) != FlashIcon(b)
  {
  }

  class CaptureViewController {
    var flashMode: FlashMode
    var flashIcon: string
    var flashButtonHidden: bool
    var device: Optionals.Option<Device>
    var deviceModes: seq<FlashMode>   // modes passed to setFlashMode, in order

    /** The screen as loaded: flash on (its initial value sets no icon), the button showing `icon`. */
    constructor (icon: string)
      ensures flashMode == On && flashIcon == icon && !flashButtonHidden
      ensures device == Optionals.None && deviceModes == []
    {
      flashMode := On;
      flashIcon := icon;
      flashButtonHidden := false;
      device := Optionals.None;
      deviceModes := [];
    }

    /** Assigning `flashMode`, with its didSet: the icon follows the mode, then the mode goes to the device. */
    method SetFlashMode(mode: FlashMode)
      modifies this`flashMode, this`flashIcon, this`deviceModes
      ensures flashMode == mode && flashIcon == FlashIcon(mode)
      ensures deviceModes == old(deviceModes) + [mode]
    {
      flashMode := mode;
      match flashMode {
        case On => flashIcon := "Flash";
        case Off => flashIcon := "FlashOff";
        case Auto => flashIcon := "FlashAuto";
      }
      deviceModes := deviceModes + [flashMode];
    }

    /** `didPressFlashButton(_:)`: Auto becomes On, On becomes Off, Off becomes Auto. */
    method DidPressFlashButton()
      modifies this`flashMode, this`flashIcon, this`deviceModes
      ensures flashMode == NextFlashMode(old(flashMode)) && flashIcon == FlashIcon(flashMode)
      ensures deviceModes == old(deviceModes) + [flashMode]
    {
      match flashMode {
        case Auto => SetFlashMode(On);
        case On => SetFlashMode(Off);
        case Off => SetFlashMode(Auto);
      }
    }

    /** `didSetFlashMode(_:)`: an assignment of `flashMode`, with the same didSet effects. */
    method DidSetFlashMode(mode: FlashMode)
      modifies this`flashMode, this`flashIcon, this`deviceModes
      ensures flashMode == mode && flashIcon == FlashIcon(mode)
      ensures deviceModes == old(deviceModes) + [mode]
    {
      SetFlashMode(mode);
    }

    /** Assigning `device`, with its didSet: a device without a flash hides the button; no device leaves it alone. */
    method SetDevice(newDevice: Optionals.Option<Device>)
      modifies this`device, this`flashButtonHidden
      ensures device == newDevice
      ensures flashButtonHidden == ((newDevice.Some? && !newDevice.value.hasFlash) || old(flashButtonHidden))
    {
      device := newDevice;
      if device.None? {
        return;
      }
      if !device.value.hasFlash {
        flashButtonHidden := true;
      }
    }
  }

  /**
   * Three presses of the flash button return to the starting mode, and the
   * icon then shows that mode; the icon is back where it started when it
   * showed the mode to begin with (the storyboard's icon need not).
   */
  method PressThreeTimes(c: CaptureViewController)
    modifies c`flashMode, c`flashIcon, c`deviceModes
    ensures c.flashMode == old(c.flashMode) && c.flashIcon == FlashIcon(old(c.flashMode))
    ensures old(c.flashIcon) == FlashIcon(old(c.flashMode)) ==> c.flashIcon == old(c.flashIcon)
    ensures c.deviceModes == old(c.deviceModes)
      + [NextFlashMode(old(c.flashMode)), NextFlashMode(NextFlashMode(old(c.flashMode))), old(c.flashMode)]
  {
    c.DidPressFlashButton();
    c.DidPressFlashButton();
    c.DidPressFlashButton();
    NextFlashModeCycles(old(c.flashMode));
  }
}
