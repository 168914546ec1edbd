// A system-wide hotkey bound to a window: WPF modifier flags converted
// to the native registration flags, registration that always asks for no
// auto-repeat, a message filter that recognises this hotkey's message, and
// a dispose that unregisters exactly once. Native calls are recorded in a
// ghost log; the window handle is an integer.
module GlobalHotkey {
  import opened Wrappers

  /** WPF ModifierKeys flags. */
  const Alt: bv32 := 1
  const Control: bv32 := 2
  const Shift: bv32 := 4
  const Windows: bv32 := 8

  /** Native registration flags and the hotkey message. */
  const MOD_ALT: bv32 := 0x0001
  const MOD_CONTROL: bv32 := 0x0002
  const MOD_SHIFT: bv32 := 0x0004
  const MOD_WIN: bv32 := 0x0008
  const MOD_NOREPEAT: bv32 := 0x4000
  const WM_HOTKEY: int := 0x0312

  datatype NativeCall =
    | RegisterHotKey(window: int, id: int, modifiers: bv32, vk: int)
    | UnregisterHotKey(window: int, id: int)

  datatype HotkeyError = ArgumentNull | InvalidOperation

  /** Each WPF modifier present sets its native flag; no other flag is
      set. The two encodings agree bit for bit on the four modifiers. */
  method ConvertModifierKeys(modifiers: bv32) returns (r: bv32)
    ensures (r & MOD_ALT == MOD_ALT) <==> (modifiers & Alt == Alt)
    ensures (r & MOD_CONTROL == MOD_CONTROL) <==> (modifiers & Control == Control)
    ensures (r & MOD_SHIFT == MOD_SHIFT) <==> (modifiers & Shift == Shift)
    ensures (r & MOD_WIN == MOD_WIN) <==> (modifiers & Windows == Windows)
    ensures r == modifiers & 0xF
  {
    r := 0;
    if modifiers & Alt == Alt {
      r := r | MOD_ALT;
    }
    if modifiers & Control == Control {
      r := r | MOD_CONTROL;
    }
    if modifiers & Shift == Shift {
      r := r | MOD_SHIFT;
    }
    if modifiers & Windows == Windows {
      r := r | MOD_WIN;
    }
  }

  class GlobalHotkey {
    const windowHandle: int
    const hotkeyId: int
    var disposed: bool
    /** Whether the message hook is installed on the window's source. */
    var hooked: bool
    ghost var calls: seq<NativeCall>

    constructor (windowHandle: int, hotkeyId: int, hooked: bool, ghost calls: seq<NativeCall>)
      ensures this.windowHandle == windowHandle && this.hotkeyId == hotkeyId
      ensures !disposed && this.hooked == hooked && this.calls == calls
    {
      this.windowHandle := windowHandle;
      this.hotkeyId := hotkeyId;
      disposed := false;
      this.hooked := hooked;
      this.calls := calls;
    }

    /** The window procedure: this hotkey's message is handled and raises
        the event; any other message leaves handled as it came. The
        answer is always zero. */
    method WndProc(msg: int, wParam: int, handled: bool) returns (handledOut: bool, pressed: bool, result: int)
      ensures pressed <==> msg == WM_HOTKEY && wParam == hotkeyId
      ensures handledOut == (handled || pressed)
      ensures result == 0
    {
      pressed := false;
      handledOut := handled;
      if msg == WM_HOTKEY && wParam == hotkeyId {
        pressed := true;
        handledOut := true;
      }
      result := 0;
    }

    /** Unhooks (when disposing) and unregisters the first time only. */
    method Dispose(disposing: bool)
      modifies this`disposed, this`hooked, this`calls
      ensures disposed
      ensures old(disposed) ==> calls == old(calls) && hooked == old(hooked)
      ensures !old(disposed) ==>
        calls == old(calls) + [UnregisterHotKey(windowHandle, hotkeyId)]
        && hooked == (old(hooked) && !disposing)
    {
      if !disposed {
        if disposing && hooked {
          hooked := false;
        }
        calls := calls + [UnregisterHotKey(windowHandle, hotkeyId)];
        disposed := true;
      }
    }
  }

  /** The constructor: a null window is refused before anything happens;
      otherwise the hotkey is registered with the converted modifiers
      plus no-repeat, and a refused registration fails. hasSource stands
      for the window having a message source to hook. */
  method NewGlobalHotkey(window: Option<int>, hotkeyId: int, modifiers: bv32, vk: int, registered: bool, hasSource: bool)
    returns (r: Result<GlobalHotkey, HotkeyError>, ghost calls: seq<NativeCall>)
    ensures window.None? ==> r == Err(ArgumentNull) && calls == []
    ensures window.Some? ==>
      && |calls| == 1
      && calls[0] == RegisterHotKey(window.value, hotkeyId, (modifiers & 0xF) | MOD_NOREPEAT, vk)
      && calls[0].modifiers & MOD_NOREPEAT == MOD_NOREPEAT
    ensures window.Some? && !registered ==> r == Err(InvalidOperation)
    ensures window.Some? && registered ==>
      && r.Ok? && fresh(r.value)
      && r.value.windowHandle == window.value && r.value.hotkeyId == hotkeyId
      && !r.value.disposed && r.value.hooked == hasSource && r.value.calls == calls
  {
    if window.None? {
      return Err(ArgumentNull), [];
    }
    var fsModifiers := ConvertModifierKeys(modifiers);
    fsModifiers := fsModifiers | MOD_NOREPEAT;
    calls := [RegisterHotKey(window.value, hotkeyId, fsModifiers, vk)];
    if !registered {
      return Err(InvalidOperation), calls;
    }
    var h := new GlobalHotkey(window.value, hotkeyId, hasSource, calls);
    r := Ok(h);
  }

  /** Disposing twice unregisters once. */
  method DisposeTwice(h: GlobalHotkey)
    requires !h.disposed
    modifies h
    ensures h.calls == old(h.calls) + [UnregisterHotKey(h.windowHandle, h.hotkeyId)]
    ensures !h.hooked
  {
    h.Dispose(true);
    h.Dispose(true);
  }
}
