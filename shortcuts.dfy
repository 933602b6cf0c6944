/** The keyboard-shortcut registry: a table from key strings such as `Ctrl+Shift+o` to a
    callback and a description, kept in insertion order like a JavaScript `Map`, a switch
    that turns all shortcuts off, and the key handler that builds the key string of a
    key-down event and runs the callback registered for it. Callbacks are opaque; the
    handler returns which one it would run. */
module Shortcuts {
  import opened Seqs
  import opened JsString

  /** What a registered callback does: the default shortcuts dispatch a `browserShortcut`
      event naming their action; any other callback is opaque. */
  datatype Callback = DispatchAction(action: string, keys: string, description: string)
                    | Custom(handle: nat)

  datatype Shortcut = Shortcut(callback: Callback, description: string)

  /** The parts of a key-down event the handler reads. */
  datatype KeyEvent = KeyEvent(key: string, ctrlKey: bool, metaKey: bool, altKey: bool, shiftKey: bool,
                               targetTagName: string, targetContentEditable: string)

  /** What the handler does with an event: nothing, or prevent the default action and run the
      callback. */
  datatype Outcome = NoEffect | Fired(callback: Callback)

  /** One row of `getShortcuts`. */
  datatype Listed = Listed(keys: string, description: string)

  /** The modifier names, in their fixed order, each followed by `+`. */
  function ModifierPrefix(e: KeyEvent): string
  {
    (if e.ctrlKey || e.metaKey then "Ctrl+" else "") + (if e.altKey then "Alt+" else "")
    + (if e.shiftKey then "Shift+" else "")
  }

  /** `parts.join('+')`. */
  function JoinPlus(parts: seq<string>): string
  {
    if parts == [] then ""
    else if |parts| == 1 then parts[0]
    else JoinPlus(parts[..|parts| - 1]) + "+" + parts[|parts| - 1]
  }

  /** The key string ends in an upper-case letter that no later `+` separates from the end:
      the key name the string ends with has an upper-case letter in it. */
  predicate UpperInLastSegment(k: string)
  {
    exists i :: 0 <= i < |k| && IsUpperAscii(k[i]) && forall j :: i < j < |k| ==> k[j] != '+'
  }

  /** `getKeyString`: `Ctrl` (for Ctrl or Meta), `Alt` and `Shift` in that order, then the key
      in lower case, joined by `+`. */
  method GetKeyString(e: KeyEvent) returns (keyString: string)
    ensures keyString == ModifierPrefix(e) + ToLower(e.key)
    ensures !UpperInLastSegment(keyString)
  {
    var modifiers: seq<string> := [];
    if e.ctrlKey || e.metaKey {
      modifiers := modifiers + ["Ctrl"];
    }
    if e.altKey {
      modifiers := modifiers + ["Alt"];
    }
    if e.shiftKey {
      modifiers := modifiers + ["Shift"];
    }
    assert modifiers == Modifiers(e);
    ModifiersSpellPrefix(e);
    var key := ToLower(e.key);
    keyString := JoinPlus(modifiers + [key]);
    KeyStringShape(e, modifiers);
  }

  /** Once the modifiers spell out the prefix, joining them with the lower-cased key gives the
      prefix followed by that key, and no upper-case letter ends it. */
  lemma KeyStringShape(e: KeyEvent, modifiers: seq<string>)
    requires PlusEach(modifiers) == ModifierPrefix(e)
    ensures JoinPlus(modifiers + [ToLower(e.key)]) == ModifierPrefix(e) + ToLower(e.key)
    ensures !UpperInLastSegment(ModifierPrefix(e) + ToLower(e.key))
  {
    JoinPlusSnoc(modifiers, ToLower(e.key));
    PrefixEndsInPlus(e);
    var k := ToLower(e.key);
    assert forall i :: 0 <= i < |k| ==> !IsUpperAscii(k[i]);
    NoUpperInLastSegment(ModifierPrefix(e), k);
  }

  /** The modifier names the handler collects, in order. */
  function Modifiers(e: KeyEvent): seq<string>
  {
    (if e.ctrlKey || e.metaKey then ["Ctrl"] else []) + (if e.altKey then ["Alt"] else [])
    + (if e.shiftKey then ["Shift"] else [])
  }

  lemma ModifiersSpellPrefix(e: KeyEvent)
    ensures PlusEach(Modifiers(e)) == ModifierPrefix(e)
  {
    var c: seq<string> := if e.ctrlKey || e.metaKey then ["Ctrl"] else [];
    var a: seq<string> := if e.altKey then ["Alt"] else [];
    var s: seq<string> := if e.shiftKey then ["Shift"] else [];
    var pc: string := if e.ctrlKey || e.metaKey then "Ctrl+" else "";
    var pa: string := if e.altKey then "Alt+" else "";
    var ps: string := if e.shiftKey then "Shift+" else "";
    PlusEachOptional([], e.ctrlKey || e.metaKey, "Ctrl", "Ctrl+");
    assert [] + c == c && "" + pc == pc;
    PlusEachOptional(c, e.altKey, "Alt", "Alt+");
    PlusEachOptional(c + a, e.shiftKey, "Shift", "Shift+");
    assert PlusEach(c + a + s) == pc + pa + ps;
    assert Modifiers(e) == c + a + s && ModifierPrefix(e) == pc + pa + ps;
  }

  /** A part added only when `flag` holds adds its spelling only when `flag` holds. */
  lemma PlusEachOptional(parts: seq<string>, flag: bool, name: string, spelled: string)
    requires spelled == name + "+"
    ensures PlusEach(parts + (if flag then [name] else [])) == PlusEach(parts) + (if flag then spelled else "")
  {
    if flag {
      PlusEachSnoc(parts, name);
    } else {
      assert parts + [] == parts;
    }
  }

  lemma PrefixEndsInPlus(e: KeyEvent)
    ensures ModifierPrefix(e) == [] || ModifierPrefix(e)[|ModifierPrefix(e)| - 1] == '+'
  {
  }

  /** Each part followed by `+`. */
  function PlusEach(parts: seq<string>): string
  {
    if parts == [] then "" else PlusEach(parts[..|parts| - 1]) + parts[|parts| - 1] + "+"
  }

  lemma PlusEachSnoc(parts: seq<string>, x: string)
    ensures PlusEach(parts + [x]) == PlusEach(parts) + x + "+"
  {
    assert (parts + [x])[..|parts|] == parts;
  }

  /** Joining with one more part puts a `+` after each earlier part. */
  lemma {:induction false} JoinPlusSnoc(parts: seq<string>, last: string)
    ensures JoinPlus(parts + [last]) == PlusEach(parts) + last
  {
    var p := parts + [last];
    if parts != [] {
      assert p[..|p| - 1] == parts;
      var n := |parts|;
      JoinPlusSnoc(parts[..n - 1], parts[n - 1]);
      assert parts[..n - 1] + [parts[n - 1]] == parts;
    }
  }

  /** Whatever follows a prefix that is empty or ends in `+`, if it has no upper-case letter,
      the last segment of the whole has none. */
  lemma NoUpperInLastSegment(prefix: string, k: string)
    requires prefix == [] || prefix[|prefix| - 1] == '+'
    requires forall i :: 0 <= i < |k| ==> !IsUpperAscii(k[i])
    ensures !UpperInLastSegment(prefix + k)
  {
    var s := prefix + k;
    forall i | 0 <= i < |s| && IsUpperAscii(s[i])
      ensures exists j :: i < j < |s| && s[j] == '+'
    {
      assert i < |prefix|;
      assert s[|prefix| - 1] == '+';
    }
  }

  class KeyboardShortcuts {
    var shortcuts: map<string, Shortcut>
    /** The keys of `shortcuts` in insertion order. */
    var order: seq<string>
    var isEnabled: bool

    ghost predicate Valid()
      reads this
    {
      NoDup(order) && forall k :: k in order <==> k in shortcuts
    }

    /** An empty, enabled registry. Attaching the key-down listener is not modelled. */
    constructor ()
      ensures Valid() && shortcuts == map[] && order == [] && isEnabled
    {
      shortcuts := map[];
      order := [];
      isEnabled := true;
    }

    /** `handleKeyDown`: nothing while disabled or while typing into an `INPUT`, a `TEXTAREA`
        or an editable element; otherwise the callback registered for the event's key string
        runs (and the default is prevented), and an unregistered key string does nothing. */
    method HandleKeyDown(e: KeyEvent) returns (outcome: Outcome)
      ensures !isEnabled ==> outcome == NoEffect
      ensures e.targetTagName == "INPUT" || e.targetTagName == "TEXTAREA" || e.targetContentEditable == "true"
              ==> outcome == NoEffect
      ensures outcome.Fired? <==>
                isEnabled && e.targetTagName != "INPUT" && e.targetTagName != "TEXTAREA"
                && e.targetContentEditable != "true" && ModifierPrefix(e) + ToLower(e.key) in shortcuts
      ensures outcome.Fired? ==> outcome.callback == shortcuts[ModifierPrefix(e) + ToLower(e.key)].callback
    {
      if !isEnabled {
        return NoEffect;
      }
      if e.targetTagName == "INPUT" || e.targetTagName == "TEXTAREA" || e.targetContentEditable == "true" {
        return NoEffect;
      }
      var key := GetKeyString(e);
      if key in shortcuts {
        outcome := Fired(shortcuts[key].callback);
      } else {
        outcome := NoEffect;
      }
    }

    /** `register(keys, callback, description)`: the binding for `keys` is set, replacing any
        earlier one but keeping its place in the order; other bindings are untouched. */
    method Register(keys: string, callback: Callback, description: string)
      requires Valid()
      modifies this`shortcuts, this`order
      ensures Valid()
      ensures shortcuts == old(shortcuts)[keys := Shortcut(callback, description)]
      ensures order == if keys in old(order) then old(order) else old(order) + [keys]
    {
      if keys !in order {
        order := order + [keys];
      }
      shortcuts := shortcuts[keys := Shortcut(callback, description)];
    }

    /** `unregister(keys)`: the binding for `keys` goes; other bindings are untouched. */
    method Unregister(keys: string)
      requires Valid()
      modifies this`shortcuts, this`order
      ensures Valid()
      ensures shortcuts == old(shortcuts) - {keys}
      ensures forall k :: k in order <==> k in old(order) && k != keys
      ensures Subsequence(order, old(order))
    {
      if NoDup(order) {
        FilterNoDup(order, (k: string) => k != keys);
      }
      order := Filter(order, (k: string) => k != keys);
      shortcuts := shortcuts - {keys};
    }

    method Enable()
      modifies this`isEnabled
      ensures isEnabled
    {
      isEnabled := true;
    }

    method Disable()
      modifies this`isEnabled
      ensures !isEnabled
    {
      isEnabled := false;
    }

    /** `getShortcuts`: one (keys, description) row per binding, in insertion order. */
    function GetShortcuts(): (r: seq<Listed>)
      reads this
      requires Valid()
      ensures |r| == |order|
      ensures forall i :: 0 <= i < |r| ==> r[i].keys == order[i] && r[i].description == shortcuts[order[i]].description
      ensures forall k :: k in shortcuts ==> exists i :: 0 <= i < |r| && r[i].keys == k
    {
      var o, m := order, shortcuts;
      assert forall i :: 0 <= i < |o| ==> o[i] in m;
      var r := seq(|o|, i requires 0 <= i < |o| && o[i] in m => Listed(o[i], m[o[i]].description));
      forall k | k in shortcuts ensures exists i :: 0 <= i < |r| && r[i].keys == k {
        var i :| 0 <= i < |order| && order[i] == k;
        assert r[i].keys == k;
      }
      r
    }

    /** Registers every default shortcut in table order, each dispatching its action. */
    method RegisterDefaults()
      requires Valid()
      modifies this`shortcuts, this`order
      ensures Valid()
      ensures shortcuts == BindAll(old(shortcuts), DEFAULT_SHORTCUTS)
      ensures order == OrderAll(old(order), DEFAULT_SHORTCUTS)
      ensures forall d :: d in DEFAULT_SHORTCUTS ==> d.keys in shortcuts
      ensures forall k :: k in shortcuts ==> k in old(shortcuts) || exists d :: d in DEFAULT_SHORTCUTS && d.keys == k
    {
      RegisterAll(DEFAULT_SHORTCUTS);
    }

    /** Registers the rows of `table` in order: each row's keys end up bound to the last row
        naming them, keys new to the registry join the back of the order, and every other
        binding is untouched. */
    method RegisterAll(table: seq<DefaultShortcut>)
      requires Valid()
      modifies this`shortcuts, this`order
      ensures Valid()
      ensures shortcuts == BindAll(old(shortcuts), table)
      ensures order == OrderAll(old(order), table)
      ensures forall d :: d in table ==> d.keys in shortcuts
      ensures forall k :: k in shortcuts ==> k in old(shortcuts) || exists d :: d in table && d.keys == k
      ensures forall n :: 0 <= n < |table| && (forall m :: n < m < |table| ==> table[m].keys != table[n].keys) ==>
                table[n].keys in shortcuts && shortcuts[table[n].keys] == Binding(table[n])
      ensures forall k :: k in old(shortcuts) && (forall d :: d in table ==> d.keys != k) ==>
                k in shortcuts && shortcuts[k] == old(shortcuts)[k]
    {
      for n := 0 to |table|
        invariant Valid()
        invariant shortcuts == BindAll(old(shortcuts), table[..n])
        invariant order == OrderAll(old(order), table[..n])
      {
        var d := table[n];
        assert table[..n + 1][..n] == table[..n];
        Register(d.keys, DispatchAction(d.action, d.keys, d.description), d.description);
      }
      assert table[..|table|] == table;
      BindAllKeys(old(shortcuts), table);
      forall n | 0 <= n < |table| && (forall m :: n < m < |table| ==> table[m].keys != table[n].keys)
        ensures table[n].keys in shortcuts && shortcuts[table[n].keys] == Binding(table[n])
      {
        BindAllLastRowWins(old(shortcuts), table, n);
      }
      forall k | k in old(shortcuts) && (forall d :: d in table ==> d.keys != k)
        ensures k in shortcuts && shortcuts[k] == old(shortcuts)[k]
      {
        BindAllOthers(old(shortcuts), table, k);
      }
    }
  }

  datatype DefaultShortcut = DefaultShortcut(keys: string, description: string, action: string)

  /** The binding a default row installs: a callback dispatching its action. */
  function Binding(d: DefaultShortcut): Shortcut
  {
    Shortcut(DispatchAction(d.action, d.keys, d.description), d.description)
  }

  /** The bindings after registering the rows of `table` in order on top of `m`. */
  function BindAll(m: map<string, Shortcut>, table: seq<DefaultShortcut>): map<string, Shortcut>
  {
    if table == [] then m
    else
      var d := table[|table| - 1];
      BindAll(m, table[..|table| - 1])[d.keys := Binding(d)]
  }

  /** The key order after registering the rows of `table` in order: a key not yet in the
      order joins its back, a known key keeps its place. */
  function OrderAll(o: seq<string>, table: seq<DefaultShortcut>): seq<string>
  {
    if table == [] then o
    else
      var p := OrderAll(o, table[..|table| - 1]);
      var k := table[|table| - 1].keys;
      if k in p then p else p + [k]
  }

  /** Registering a table binds exactly the keys bound before and the keys of its rows. */
  lemma {:induction false} BindAllKeys(m: map<string, Shortcut>, table: seq<DefaultShortcut>)
    ensures forall k :: k in BindAll(m, table) <==> k in m || exists d :: d in table && d.keys == k
  {
    if table != [] {
      var init := table[..|table| - 1];
      BindAllKeys(m, init);
      assert table == init + [table[|table| - 1]];
    }
  }

  /** A key is bound to the last row that names it. */
  lemma {:induction false} BindAllLastRowWins(m: map<string, Shortcut>, table: seq<DefaultShortcut>, n: nat)
    requires n < |table|
    requires forall j :: n < j < |table| ==> table[j].keys != table[n].keys
    ensures table[n].keys in BindAll(m, table)
    ensures BindAll(m, table)[table[n].keys] == Binding(table[n])
  {
    if n < |table| - 1 {
      var init := table[..|table| - 1];
      assert init[n] == table[n];
      BindAllLastRowWins(m, init, n);
    }
  }

  /** A key no row names keeps the binding it had. */
  lemma {:induction false} BindAllOthers(m: map<string, Shortcut>, table: seq<DefaultShortcut>, k: string)
    requires k in m
    requires forall d :: d in table ==> d.keys != k
    ensures k in BindAll(m, table) && BindAll(m, table)[k] == m[k]
  {
    if table != [] {
      var init := table[..|table| - 1];
      assert forall d :: d in init ==> d in table;
      BindAllOthers(m, init, k);
      assert table[|table| - 1] in table;
    }
  }

  /** The order after registering a table starts with the order before, holds exactly the
      keys known before and those of the rows. */
  lemma {:induction false} OrderAllExtends(o: seq<string>, table: seq<DefaultShortcut>)
    ensures |OrderAll(o, table)| >= |o| && OrderAll(o, table)[..|o|] == o
    ensures forall k :: k in OrderAll(o, table) <==> k in o || exists d :: d in table && d.keys == k
  {
    if table != [] {
      var init := table[..|table| - 1];
      OrderAllExtends(o, init);
      assert table == init + [table[|table| - 1]];
      var p := OrderAll(o, init);
      var k := table[|table| - 1].keys;
      if k !in p {
        assert (p + [k])[..|o|] == p[..|o|];
      }
    }
  }

  /** The default table, in its declaration order. */
  const DEFAULT_SHORTCUTS: seq<DefaultShortcut> := [
    DefaultShortcut("Ctrl+t", "New Tab", "newTab"),
    DefaultShortcut("Ctrl+w", "Close Tab", "closeTab"),
    DefaultShortcut("Ctrl+Tab", "Next Tab", "nextTab"),
    DefaultShortcut("Ctrl+Shift+Tab", "Previous Tab", "previousTab"),
    DefaultShortcut("Ctrl+r", "Refresh Page", "refresh"),
    DefaultShortcut("Ctrl+l", "Focus Address Bar", "focusAddressBar"),
    DefaultShortcut("F5", "Refresh Page", "refresh"),
    DefaultShortcut("F6", "Focus Address Bar", "focusAddressBar"),
    DefaultShortcut("Alt+ArrowLeft", "Go Back", "goBack"),
    DefaultShortcut("Alt+ArrowRight", "Go Forward", "goForward"),
    DefaultShortcut("Ctrl+Shift+Delete", "Clear Browsing Data", "clearData"),
    DefaultShortcut("Ctrl+Plus", "Zoom In", "zoomIn"),
    DefaultShortcut("Ctrl+Minus", "Zoom Out", "zoomOut"),
    DefaultShortcut("Ctrl+0", "Reset Zoom", "resetZoom"),
    DefaultShortcut("Ctrl+,", "Open Settings", "openSettings"),
    DefaultShortcut("F12", "Developer Tools", "devTools"),
    DefaultShortcut("Escape", "Close Modal/Panel", "closeModal"),
    DefaultShortcut("Ctrl+d", "Add Bookmark", "addBookmark"),
    DefaultShortcut("Ctrl+Shift+o", "Open Bookmarks", "openBookmarks"),
    DefaultShortcut("Ctrl+j", "Open Downloads", "openDownloads"),
    DefaultShortcut("Ctrl+h", "Open History", "openHistory"),
    DefaultShortcut("Ctrl+Shift+e", "Open Extensions", "openExtensions"),
    DefaultShortcut("Ctrl+Shift+p", "Performance Monitor", "performanceMonitor"),
    DefaultShortcut("Ctrl+Shift+n", "New Incognito Window", "incognitoMode"),
    DefaultShortcut("Ctrl+Shift+i", "System Information", "systemInfo")
  ]

  /** A binding whose key name has an upper-case letter can never be triggered: no event's
      key string equals it. */
  lemma UpperKeyNeverFires(keys: string, e: KeyEvent)
    requires UpperInLastSegment(keys)
    ensures ModifierPrefix(e) + ToLower(e.key) != keys
  {
    PrefixEndsInPlus(e);
    NoUpperInLastSegment(ModifierPrefix(e), ToLower(e.key));
  }

  lemma TabIsUnmatchable()
    ensures UpperInLastSegment("Ctrl+Tab") && UpperInLastSegment("Ctrl+Shift+Tab")
  {
    assert IsUpperAscii("Ctrl+Tab"[5]);
    assert IsUpperAscii("Ctrl+Shift+Tab"[11]);
  }

  lemma FunctionKeysAreUnmatchable()
    ensures UpperInLastSegment("F5") && UpperInLastSegment("F6") && UpperInLastSegment("F12")
    ensures UpperInLastSegment("Escape")
  {
    assert IsUpperAscii("F5"[0]) && IsUpperAscii("F6"[0]) && IsUpperAscii("F12"[0]);
    assert IsUpperAscii("Escape"[0]);
  }

  lemma ArrowsAreUnmatchable()
    ensures UpperInLastSegment("Alt+ArrowLeft") && UpperInLastSegment("Alt+ArrowRight")
  {
    assert IsUpperAscii("Alt+ArrowLeft"[9]);
    assert IsUpperAscii("Alt+ArrowRight"[9]);
  }

  lemma ZoomAndDeleteAreUnmatchable()
    ensures UpperInLastSegment("Ctrl+Plus") && UpperInLastSegment("Ctrl+Minus")
    ensures UpperInLastSegment("Ctrl+Shift+Delete")
  {
    assert IsUpperAscii("Ctrl+Plus"[5]);
    assert IsUpperAscii("Ctrl+Minus"[5]);
    assert IsUpperAscii("Ctrl+Shift+Delete"[11]);
  }

  /** Eleven of the twenty-five default shortcuts can never fire, because the handler lowers
      the key name and these entries spell theirs with a capital. */
  lemma UnmatchableDefaults(e: KeyEvent)
    ensures var k := ModifierPrefix(e) + ToLower(e.key);
            k != "Ctrl+Tab" && k != "Ctrl+Shift+Tab" && k != "F5" && k != "F6" && k != "F12"
            && k != "Escape" && k != "Alt+ArrowLeft" && k != "Alt+ArrowRight"
            && k != "Ctrl+Plus" && k != "Ctrl+Minus" && k != "Ctrl+Shift+Delete"
  {
    TabIsUnmatchable();
    FunctionKeysAreUnmatchable();
    ArrowsAreUnmatchable();
    ZoomAndDeleteAreUnmatchable();
    PrefixEndsInPlus(e);
    NoUpperInLastSegment(ModifierPrefix(e), ToLower(e.key));
  }

  /** A lower-case default such as `Ctrl+t` does fire: Ctrl (or Meta) with the key `t` or `T`. */
  lemma CtrlTFires(e: KeyEvent)
    requires e.ctrlKey && !e.altKey && !e.shiftKey && (e.key == "t" || e.key == "T")
    ensures ModifierPrefix(e) + ToLower(e.key) == "Ctrl+t"
  {
  }
}
